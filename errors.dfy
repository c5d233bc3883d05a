/** The error accumulator's text form: every recorded message followed by a
    newline, in recording order. */
module Errors {
  import opened Topology

  function Joined(errs: seq<Error>): (s: string)
    ensures |s| >= |errs|
    ensures errs != [] ==> s[|s| - 1] == '\n'
  {
    if errs == [] then ""
    else Joined(errs[..|errs| - 1]) + errs[|errs| - 1].message + "\n"
  }

  /** Joining keeps recording order: the text of a concatenation is the text
      of its first part followed by the text of its second part. */
  lemma {:induction false} JoinedAppend(a: seq<Error>, b: seq<Error>)
    ensures Joined(a + b) == Joined(a) + Joined(b)
  {
    if b != [] {
      var n := |b| - 1;
      assert (a + b)[..|a + b| - 1] == a + b[..n];
      JoinedAppend(a, b[..n]);
    } else {
      assert a + b == a;
    }
  }

  /** Each recorded error contributes exactly its message and one newline, at
      its place in the order. */
  lemma {:induction false} JoinedAt(errs: seq<Error>, i: nat)
    requires i < |errs|
    ensures Joined(errs) == Joined(errs[..i]) + errs[i].message + "\n" + Joined(errs[i + 1..])
  {
    var pre, e, post := errs[..i], errs[i], errs[i + 1..];
    assert [e][..0] == [];
    assert Joined([e]) == e.message + "\n";
    JoinedAppend(pre, [e]);
    JoinedAppend(pre + [e], post);
    assert errs == pre + [e] + post;
  }
}
