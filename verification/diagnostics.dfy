/** `checkErrors`: the diagnostics pass that picks the malformed tokens
    out of a token list. */
module Diagnostics {
  import opened Tokens

  /** The kinds `checkErrors` reports, in the order of its error list.
      Malformed characters and malformed relational operators are not
      among them. */
  const ErrorKinds: seq<Kind> :=
    [MalformedNumber, MalformedComment, MalformedString, MalformedLogicalOp, MalformedArithmeticOp]

  predicate Reported(k: Kind) {
    k in ErrorKinds
  }

  /** The reference filter: the reported tokens of `ts`, in order. */
  function ErrorsOf(ts: seq<Token>): (es: seq<Token>)
    ensures |es| <= |ts|
  {
    if ts == [] then []
    else ErrorsOf(ts[..|ts| - 1]) + (if Reported(ts[|ts| - 1].kind) then [ts[|ts| - 1]] else [])
  }

  /** One copy of `t` for every kind in `ks` that equals its kind: what
      the inner loop of `checkErrors` appends for one token. */
  function Copies(t: Token, ks: seq<Kind>): (cs: seq<Token>)
    ensures forall c :: c in cs ==> c == t
  {
    if ks == [] then []
    else Copies(t, ks[..|ks| - 1]) + (if ks[|ks| - 1] == t.kind then [t] else [])
  }

  /** Extending the kinds by one appends at most one copy. */
  lemma CopiesStep(t: Token, ks: seq<Kind>, n: nat)
    requires n < |ks|
    ensures Copies(t, ks[..n + 1]) == Copies(t, ks[..n]) + (if ks[n] == t.kind then [t] else [])
  {
    assert ks[..n + 1][..n] == ks[..n];
  }

  /** Over distinct kinds, a token is copied once if its kind is among
      them and never otherwise. */
  lemma {:induction false} CopiesDistinct(t: Token, ks: seq<Kind>)
    requires forall i, j :: 0 <= i < j < |ks| ==> ks[i] != ks[j]
    ensures Copies(t, ks) == if t.kind in ks then [t] else []
    decreases |ks|
  {
    if ks != [] {
      var init, last := ks[..|ks| - 1], ks[|ks| - 1];
      assert forall i, j :: 0 <= i < j < |init| ==> init[i] != init[j] by {
        forall i, j | 0 <= i < j < |init|
          ensures init[i] != init[j]
        {
          assert init[i] == ks[i] && init[j] == ks[j];
        }
      }
      CopiesDistinct(t, init);
      assert Copies(t, ks) == Copies(t, init) + (if last == t.kind then [t] else []);
      assert t.kind in ks <==> t.kind in init || t.kind == last by {
        assert ks == init + [last];
      }
      if last == t.kind {
        assert t.kind !in init by {
          forall i | 0 <= i < |init|
            ensures init[i] != t.kind
          {
            assert init[i] == ks[i];
          }
        }
      }
    }
  }

  /** The error kinds are distinct, so the inner loop appends a token at
      most once, and exactly when its kind is reported. */
  lemma CopiesOnce(t: Token)
    ensures Copies(t, ErrorKinds) == if Reported(t.kind) then [t] else []
  {
    CopiesDistinct(t, ErrorKinds);
  }

  /** The inner loop of `checkErrors` for one token: the token once if
      its kind is reported, nothing otherwise. */
  method ErrorCopies(t: Token) returns (cs: seq<Token>)
    ensures cs == if Reported(t.kind) then [t] else []
  {
    cs := [];
    var e := 0;
    while e < |ErrorKinds|
      invariant 0 <= e <= |ErrorKinds|
      invariant cs == Copies(t, ErrorKinds[..e])
    {
      if ErrorKinds[e] == t.kind {
        cs := cs + [t];
      }
      CopiesStep(t, ErrorKinds, e);
      e := e + 1;
    }
    assert ErrorKinds[..e] == ErrorKinds;
    CopiesOnce(t);
  }

  /** `checkErrors`: the reported tokens of the list, in order. */
  method CheckErrors(tokens: seq<Token>) returns (errors: seq<Token>)
    ensures errors == ErrorsOf(tokens)
  {
    errors := [];
    var t := 0;
    while t < |tokens|
      invariant 0 <= t <= |tokens|
      invariant errors == ErrorsOf(tokens[..t])
    {
      var cs := ErrorCopies(tokens[t]);
      errors := errors + cs;
      assert tokens[..t + 1][..t] == tokens[..t];
      t := t + 1;
    }
    assert tokens[..t] == tokens;
  }

  // ---------------------------------------------------------------------
  // What the filter promises

  /** Filtering distributes over concatenation: the reported tokens keep
      their relative order. */
  lemma {:induction false} ErrorsOfAppend(a: seq<Token>, b: seq<Token>)
    ensures ErrorsOf(a + b) == ErrorsOf(a) + ErrorsOf(b)
    decreases |b|
  {
    if b == [] {
      assert a + b == a;
    } else {
      var b' := b[..|b| - 1];
      assert (a + b)[..|a + b| - 1] == a + b';
      ErrorsOfAppend(a, b');
    }
  }

  /** Each token of the input is reported exactly as often as it occurs,
      if its kind is reported, and never otherwise. */
  lemma {:induction false} ErrorsOfCount(ts: seq<Token>, x: Token)
    ensures multiset(ErrorsOf(ts))[x] == if Reported(x.kind) then multiset(ts)[x] else 0
    decreases |ts|
  {
    if ts != [] {
      var init := ts[..|ts| - 1];
      assert ts == init + [ts[|ts| - 1]];
      ErrorsOfCount(init, x);
    }
  }

  /** Every reported token comes from the input and has a reported kind. */
  lemma ErrorsOfMembers(ts: seq<Token>)
    ensures forall e :: e in ErrorsOf(ts) ==> e in ts && Reported(e.kind)
  {
    forall e | e in ErrorsOf(ts)
      ensures e in ts && Reported(e.kind)
    {
      ErrorsOfCount(ts, e);
      assert multiset(ErrorsOf(ts))[e] > 0;
    }
  }

  /** Malformed characters and malformed relational operators are never
      reported. */
  lemma ErrorsOfSkips(ts: seq<Token>)
    ensures forall e :: e in ErrorsOf(ts) ==> e.kind != MalformedChar && e.kind != MalformedRelationalOp
  {
    ErrorsOfMembers(ts);
  }

  /** Filtering twice changes nothing. */
  lemma {:induction false} ErrorsOfIdempotent(ts: seq<Token>)
    ensures ErrorsOf(ErrorsOf(ts)) == ErrorsOf(ts)
    decreases |ts|
  {
    if ts != [] {
      var init := ts[..|ts| - 1];
      var last := ts[|ts| - 1];
      ErrorsOfIdempotent(init);
      var tail := if Reported(last.kind) then [last] else [];
      ErrorsOfAppend(ErrorsOf(init), tail);
      if Reported(last.kind) {
        assert ErrorsOf([last]) == ErrorsOf([]) + [last];
      } else {
        assert tail == [];
      }
    }
  }
}
