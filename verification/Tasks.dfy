/** The task records that scheduling reads. */
module Tasks {
  import opened TaskStates

  datatype Scope = Scope(allowedPaths: seq<string>, forbiddenPaths: seq<string>)

  /** Priority n stands for `P<n>`. */
  datatype Task = Task(
    id: string, status: TaskStatus, priority: nat, dependsOn: seq<string>, scope: Scope, resources: seq<string>,
    approvalRequired: bool, approvalGranted: bool, maxAttempts: int)
}
