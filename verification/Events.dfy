/** Domain events, one datatype per aggregate, and the records that carry them.

    A record's value is JSON in the program. Here it is the typed value the JSON
    stands for, because decoding inverts encoding; a reader that expects a
    different type finds the value unreadable, as a failed parse would be. */
module Events {
  import opened Base

  datatype UserEvent =
    | Registered(userId: Id, username: string, usernameLower: string, email: string, passwordHash: string)
    | ProfileUpdated(userId: Id, displayName: Option<string>, bio: Option<string>)
    | Deactivated(userId: Id)

  datatype RepoEvent =
    | Created(repoId: Id, ownerId: Id, ownerName: string, name: string, fullNameLower: string,
              description: Option<string>, defaultBranch: string, visibility: string)
    | Renamed(repoId: Id, name: string, fullNameLower: string)
    | DescriptionChanged(repoId: Id, description: Option<string>)
    | VisibilityChanged(repoId: Id, visibility: string)
    | DefaultBranchChanged(repoId: Id, defaultBranch: string)
    | CollaboratorAdded(repoId: Id, userId: Id)
    | CollaboratorRemoved(repoId: Id, userId: Id)
    | RepoDeleted(repoId: Id)

  datatype IssueEvent =
    | IssueOpened(issueId: Id, repoId: Id, number: int, title: string, body: Option<string>,
                  authorId: Id, authorName: string)
    | Commented(commentId: Id, issueId: Id, repoId: Id, authorId: Id, authorName: string, text: string)
    | TitleChanged(issueId: Id, repoId: Id, title: string)
    | IssueClosed(issueId: Id, repoId: Id, actor: Id)
    | IssueReopened(issueId: Id, repoId: Id, actor: Id)

  datatype ReviewVerdict = Approve | RequestChanges | Remark

  datatype PrEvent =
    | PrOpened(prId: Id, repoId: Id, number: int, title: string, body: Option<string>, authorId: Id,
               authorName: string, sourceBranch: string, targetBranch: string, headOid: Oid, baseOid: Oid)
    | Synchronized(prId: Id, repoId: Id, headOid: Oid, baseOid: Oid)
    | MergeabilityComputed(prId: Id, repoId: Id, headOid: Oid, baseOid: Oid, mergeable: bool,
                           conflicts: seq<string>)
    | Reviewed(reviewId: Id, prId: Id, repoId: Id, reviewerId: Id, reviewerName: string,
               verdict: ReviewVerdict, remark: Option<string>)
    | Merged(prId: Id, repoId: Id, mergeCommit: Oid, mergedBy: Id, mergedByName: string)
    | PrClosed(prId: Id, repoId: Id, actor: Id)
    | PrReopened(prId: Id, repoId: Id, actor: Id)

  /** One entry of the forge's global reflog. */
  datatype RefEvent =
    RefUpdated(repoId: Id, name: string, oldOid: Option<Oid>, newOid: Option<Oid>, pusher: Id)

  datatype JobConclusion = JobSuccess | JobFailed | JobTimedOut | JobInfraFailed | JobCancelled

  datatype RunConclusion = RunSuccess | RunFailed | RunCancelled

  datatype JobSpec = JobSpec(jobId: Id, name: string, image: string)

  datatype CiEvent =
    | RunQueued(runId: Id, repoId: Id, number: int, workflow: string, trigger: string, headOid: Oid,
                refName: string, actorName: string, jobs: seq<JobSpec>)
    | JobStarted(jobId: Id, runId: Id, repoId: Id, attempt: int, logOffset: int)
    | JobFinished(jobId: Id, runId: Id, repoId: Id, attempt: int, conclusion: JobConclusion,
                  exitCode: Option<int>)
    | RunFinished(runId: Id, repoId: Id, verdict: RunConclusion)

  /** What a key of the uniqueness catalog points at. */
  datatype Claim =
    | UserClaim(userId: Id)
    | RepoClaim(repoId: Id)
    | IssueCounter(next: int)

  datatype Topic =
    | EventsUsers | EventsRepos | EventsIssues | EventsPrs | EventsGitRefs | EventsCi
    | MetaCatalog | GitRefs

  datatype Value =
    | OfUser(user: UserEvent, at: Instant)
    | OfRepo(repo: RepoEvent, at: Instant)
    | OfIssue(issue: IssueEvent, at: Instant)
    | OfPr(pr: PrEvent, at: Instant)
    | OfRef(ref: RefEvent, at: Instant)
    | OfCi(ci: CiEvent, at: Instant)
    | OfClaim(claim: Claim)
    | OfTarget(oid: Oid)
    | Unreadable

  /** A record of a topic; no value is a tombstone. */
  datatype Record = Record(topic: Topic, key: string, value: Option<Value>)
}
