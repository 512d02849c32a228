/**
 * `enforce_architecture_lock`: a rewrite of the code may add functions and
 * classes but must keep every one the original declared. Python's parser is
 * not modelled: each program is given as the set of names of its function
 * and class definitions, or as the syntax error that parsing it raised.
 */
module ArchLock {

  /** What `ast.parse` and the walk over `FunctionDef`/`ClassDef` nodes yield for a program. */
  datatype Surface = Parsed(names: set<string>) | Unparsable(error: string)

  /** The outcome of the lock. */
  datatype LockVerdict =
    | Consistent                              // (True, "架构一致")
    | MissingDeclarations(missing: set<string>) // (False, "架构锁违规：...")
    | ParseFailure(error: string)             // (False, "代码解析失败，视为违规: ...")

  /**
   * The lock on a rewrite. The original is parsed first, so its syntax error
   * is the one reported when both fail. The blueprint is not consulted.
   */
  function EnforceArchitectureLock(original: Surface, rewritten: Surface, blueprint: string): (v: LockVerdict)
    ensures v == Consistent <==>
      original.Parsed? && rewritten.Parsed? && original.names <= rewritten.names
    ensures v.MissingDeclarations? ==>
      && original.Parsed? && rewritten.Parsed?
      && v.missing != {}
      && (forall n :: n in v.missing <==> n in original.names && n !in rewritten.names)
    ensures original.Unparsable? ==> v == ParseFailure(original.error)
    ensures original.Parsed? && rewritten.Unparsable? ==> v == ParseFailure(rewritten.error)
  {
    match (original, rewritten)
    case (Unparsable(e), _) => ParseFailure(e)
    case (_, Unparsable(e)) => ParseFailure(e)
    case (Parsed(before), Parsed(after)) =>
      var missing := before - after;
      assert missing == {} ==> before <= after by {
        if missing == {} {
          forall n | n in before ensures n in after {
            assert n !in missing;
          }
        }
      }
      if missing != {} then MissingDeclarations(missing) else Consistent
  }

  /** The lock's boolean answer. */
  predicate Accepted(v: LockVerdict) {
    v == Consistent
  }

  /** The message the lock returns beside its answer, when it does not depend on set order. */
  function Message(v: LockVerdict): (m: string)
    ensures m == "架构一致" <==> Accepted(v)
  {
    match v
    case Consistent => "架构一致"
    case MissingDeclarations(_) => "架构锁违规：检测到核心接口丢失，拒绝合入。"
    case ParseFailure(e) => "代码解析失败，视为违规: " + e
  }

  /** A parsable program is consistent with itself. */
  lemma LockReflexive(code: Surface, blueprint: string)
    requires code.Parsed?
    ensures Accepted(EnforceArchitectureLock(code, code, blueprint))
  {
  }

  /** Two accepted rewrites in a row make an accepted rewrite. */
  lemma LockTransitive(a: Surface, b: Surface, c: Surface, blueprint: string)
    requires Accepted(EnforceArchitectureLock(a, b, blueprint))
    requires Accepted(EnforceArchitectureLock(b, c, blueprint))
    ensures Accepted(EnforceArchitectureLock(a, c, blueprint))
  {
  }

  /** Removing a declared name is always caught, and that name is reported. */
  lemma LockCatchesRemoval(names: set<string>, removed: string, blueprint: string)
    requires removed in names
    ensures EnforceArchitectureLock(Parsed(names), Parsed(names - {removed}), blueprint)
            == MissingDeclarations({removed})
  {
    assert names - (names - {removed}) == {removed};
  }

  /** The blueprint never changes the outcome. */
  lemma LockIgnoresBlueprint(original: Surface, rewritten: Surface, b1: string, b2: string)
    ensures EnforceArchitectureLock(original, rewritten, b1) == EnforceArchitectureLock(original, rewritten, b2)
  {
  }
}
