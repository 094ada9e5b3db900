/** The condition rewriter: before a step's `if` is compiled, the four predicate
    tokens are replaced by literals that depend on the record's status. Each token
    is replaced with `String.prototype.replace` semantics, so only its first
    occurrence changes. */
module Condition {

  import opened Types
  import opened Strings

  const FailureToken := "failure()"
  const SuccessToken := "success()"
  const CancelledToken := "cancelled()"
  const AlwaysToken := "always()"

  function Literal(b: bool): string {
    if b then "true" else "false"
  }

  /** The four rewrites of `src`, in source order. */
  function RewriteIf(cond: string, status: Status): string {
    var c1 := ReplaceFirst(cond, FailureToken, Literal(status == Failure));
    var c2 := ReplaceFirst(c1, SuccessToken, Literal(status != Failure));
    var c3 := ReplaceFirst(c2, CancelledToken, Literal(status == Cancel));
    ReplaceFirst(c3, AlwaysToken, "true")
  }

  /** No token is ever found in a literal: every token is longer than `"false"`. */
  lemma LiteralUntouched(b: bool, status: Status)
    ensures ReplaceFirst(Literal(b), SuccessToken, Literal(status != Failure)) == Literal(b)
    ensures ReplaceFirst(Literal(b), CancelledToken, Literal(status == Cancel)) == Literal(b)
    ensures ReplaceFirst(Literal(b), AlwaysToken, "true") == Literal(b)
  {
  }

  /** The rewrite, one token at a time. */
  lemma RewriteIfSteps(cond: string, status: Status, c1: string, c2: string, c3: string, c4: string)
    requires ReplaceFirst(cond, FailureToken, Literal(status == Failure)) == c1
    requires ReplaceFirst(c1, SuccessToken, Literal(status != Failure)) == c2
    requires ReplaceFirst(c2, CancelledToken, Literal(status == Cancel)) == c3
    requires ReplaceFirst(c3, AlwaysToken, "true") == c4
    ensures RewriteIf(cond, status) == c4
  {
  }

  /** `failure()` alone becomes `"true"` exactly when the run has failed. */
  lemma RewriteFailure(cond: string, status: Status)
    requires cond == FailureToken
    ensures RewriteIf(cond, status) == Literal(status == Failure)
  {
    var lit := Literal(status == Failure);
    ReplaceWhole(FailureToken, lit);
    LiteralUntouched(status == Failure, status);
    RewriteIfSteps(cond, status, lit, lit, lit, lit);
  }

  /** `success()` alone becomes `"true"` exactly when the run has not failed, which
      includes a cancelled run. */
  lemma RewriteSuccess(cond: string, status: Status)
    requires cond == SuccessToken
    ensures RewriteIf(cond, status) == Literal(status != Failure)
  {
    var lit := Literal(status != Failure);
    assert ReplaceFirst(cond, FailureToken, Literal(status == Failure)) == cond by {
      assert cond[0] != 'f';
      ReplaceFirstAbsentByHead(cond, FailureToken, Literal(status == Failure));
    }
    ReplaceWhole(SuccessToken, lit);
    LiteralUntouched(status != Failure, status);
    RewriteIfSteps(cond, status, cond, lit, lit, lit);
  }

  /** Neither `failure()` nor `success()` occurs in `cancelled()`. */
  lemma CancelledKeepsOtherTokens(rep: string)
    ensures ReplaceFirst(CancelledToken, FailureToken, rep) == CancelledToken
    ensures ReplaceFirst(CancelledToken, SuccessToken, rep) == CancelledToken
  {
    var c := CancelledToken;
    assert c[0] != 'f' && c[1] != 'f' && c[2] != 'f';
    ReplaceFirstAbsentByHead(c, FailureToken, rep);
    assert c[0] != 's' && c[1] != 's' && c[2] != 's';
    ReplaceFirstAbsentByHead(c, SuccessToken, rep);
  }

  /** `cancelled()` alone becomes `"true"` exactly when the run has been cancelled. */
  lemma RewriteCancelled(cond: string, status: Status)
    requires cond == CancelledToken
    ensures RewriteIf(cond, status) == Literal(status == Cancel)
  {
    var lit := Literal(status == Cancel);
    CancelledKeepsOtherTokens(Literal(status == Failure));
    CancelledKeepsOtherTokens(Literal(status != Failure));
    ReplaceWhole(CancelledToken, lit);
    LiteralUntouched(status == Cancel, status);
    RewriteIfSteps(cond, status, cond, cond, lit, lit);
  }

  /** `always()` alone becomes `"true"` whatever the status. */
  lemma RewriteAlways(cond: string, status: Status)
    requires cond == AlwaysToken
    ensures RewriteIf(cond, status) == "true"
  {
    assert ReplaceFirst(cond, FailureToken, Literal(status == Failure)) == cond by {
      ReplaceFirstAbsentByHead(cond, FailureToken, Literal(status == Failure));
    }
    assert ReplaceFirst(cond, SuccessToken, Literal(status != Failure)) == cond by {
      ReplaceFirstAbsentByHead(cond, SuccessToken, Literal(status != Failure));
    }
    assert ReplaceFirst(cond, CancelledToken, Literal(status == Cancel)) == cond by {
      ReplaceFirstAbsentByHead(cond, CancelledToken, Literal(status == Cancel));
    }
    ReplaceWhole(AlwaysToken, "true");
    RewriteIfSteps(cond, status, cond, cond, cond, "true");
  }

  /** A condition that mentions none of the tokens reaches the compiler unchanged. */
  lemma RewritePlain(cond: string, status: Status)
    requires forall j: nat :: !At(cond, FailureToken, j) && !At(cond, SuccessToken, j)
    requires forall j: nat :: !At(cond, CancelledToken, j) && !At(cond, AlwaysToken, j)
    ensures RewriteIf(cond, status) == cond
  {
    ReplaceFirstAbsent(cond, FailureToken, Literal(status == Failure));
    ReplaceFirstAbsent(cond, SuccessToken, Literal(status != Failure));
    ReplaceFirstAbsent(cond, CancelledToken, Literal(status == Cancel));
    ReplaceFirstAbsent(cond, AlwaysToken, "true");
  }
}
