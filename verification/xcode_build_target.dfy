/** XcodeBuildTarget: what xcodebuild builds, a project or a workspace, and
    the arguments that name it. */
module XcodeBuildTarget {
  import opened Paths

  datatype XcodeBuildTarget = Project(projectPath: AbsolutePath) | Workspace(workspacePath: AbsolutePath)

  /** path: the associated path, whichever the case. */
  function TargetPath(t: XcodeBuildTarget): (p: AbsolutePath)
    ensures t.Project? ==> p == t.projectPath
    ensures t.Workspace? ==> p == t.workspacePath
  {
    match t
    case Project(path) => path
    case Workspace(path) => path
  }

  /** xcodebuildArguments: the flag for the kind of target, then its path. */
  function XcodebuildArguments(t: XcodeBuildTarget): (args: seq<string>)
    ensures |args| == 2 && args[1] == TargetPath(t).PathString()
    ensures args[0] == (if t.Project? then "-project" else "-workspace")
  {
    match t
    case Project(path) => ["-project", path.PathString()]
    case Workspace(path) => ["-workspace", path.PathString()]
  }

  /** The arguments determine the target: the flag gives the case back. */
  lemma ArgumentsIdentifyKind(a: XcodeBuildTarget, b: XcodeBuildTarget)
    requires XcodebuildArguments(a) == XcodebuildArguments(b)
    ensures a.Project? <==> b.Project?
  {
    assert XcodebuildArguments(a)[0] == XcodebuildArguments(b)[0];
  }
}
