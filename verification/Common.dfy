/** Failure-aware results shared by every component of the model. */
module Results {

  datatype Option<+T> = None | Some(value: T)

  datatype Result<+T> = Ok(value: T) | Err(error: string)
}

/** Names of the lock files, and the compatibility rule `flock` applies to them. */
module LockNames {

  type Path = string

  /** A project is a directory directly below its root. */
  datatype Project = Project(root: Path, slug: string)

  /** A declared footprint: class `git`, `artifact` or `scratch` and an absolute path. */
  datatype Resource = Resource(class_: string, identity: string)

  datatype Mode = Shared | Exclusive

  /** `.execution.lock`, `.state/effect.lock`, one file per resource fence, `.routine-execution.lock`. */
  datatype LockName =
    | RootLock(root: Path)
    | EffectLock(project: Project)
    | FenceLock(fenceRoot: Path, resource: Resource)
    | RoutineLock(routineRoot: Path)

  /** Two locks on one file may be held together only when both are shared. */
  predicate Compatible(a: Mode, b: Mode) {
    a == Shared && b == Shared
  }
}
