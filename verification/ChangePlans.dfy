/** The mutation vocabulary of turbovault-core: changes, preconditions and plans. */
module ChangePlans {

  type Path = string
  type Content = string

  /** One file-level edit. A rename carries no bytes: they are read when the plan is applied. */
  datatype Change =
    | Upsert(path: Path, content: Content)
    | Remove(path: Path)
    | Rename(from: Path, to: Path)
  {
    /** Every path the change mutates, both ends of a rename included. */
    function TouchedPaths(): seq<Path> {
      match this
      case Upsert(p, _) => [p]
      case Remove(p) => [p]
      case Rename(f, t) => [f, t]
    }
  }

  /**
   * A version token. Blob ids are injective here, so a well-formed token either names the blob
   * holding some content or names no blob that any content has.
   */
  datatype Token = Malformed | NamesBlob(content: Content) | NamesNoBlob

  datatype Precondition = ExpectBlob(token: Token) | ExpectAbsent | ExpectExists | Blind

  datatype Expectation = Expectation(path: Path, precondition: Precondition)

  datatype ChangePlan = ChangePlan(changes: seq<Change>, preconditions: seq<Expectation>)
  {
    function With(change: Change, expected: seq<Expectation>): ChangePlan {
      ChangePlan(changes + [change], preconditions + expected)
    }

    /** Create a file that must be absent. */
    function Create(path: Path, content: Content): ChangePlan {
      With(Upsert(path, content), [Expectation(path, ExpectAbsent)])
    }

    /** Overwrite a file that must still hold the blob the caller read. */
    function Update(path: Path, content: Content, expected: Token): ChangePlan {
      With(Upsert(path, content), [Expectation(path, ExpectBlob(expected))])
    }

    /** Delete a file that must still hold the blob the caller read. */
    function Delete(path: Path, expected: Token): ChangePlan {
      With(Remove(path), [Expectation(path, ExpectBlob(expected))])
    }

    function TouchedPaths(): seq<Path> {
      Touched(changes)
    }
  }

  const EMPTY_PLAN := ChangePlan([], [])

  /** The paths a list of changes mutates, in order, with repetitions. */
  function Touched(changes: seq<Change>): seq<Path> {
    if changes == [] then [] else Touched(changes[..|changes| - 1]) + changes[|changes| - 1].TouchedPaths()
  }
}
