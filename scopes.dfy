/** The chain of environments as a value: a sequence of frames, innermost
    first, each a map from names to values. This is the state the
    environment class of environment.cpp keeps behind its parent pointers,
    and the state the functional semantics reads and writes. */
module Scopes {
  import opened Results
  import opened Values

  type Frame = map<string, Value>

  /** Innermost frame first; the last frame is the global one. */
  type Scope = seq<Frame>

  /** Some frame of the chain binds `name`. */
  predicate Bound(s: Scope, name: string) {
    exists i :: 0 <= i < |s| && name in s[i]
  }

  /** The position of the innermost frame binding `name`. */
  function Nearest(s: Scope, name: string): (i: nat)
    requires Bound(s, name)
    ensures i < |s| && name in s[i]
    ensures forall j :: 0 <= j < i ==> name !in s[j]
  {
    if name in s[0] then 0
    else
      assert Bound(s[1..], name) by {
        var k :| 0 <= k < |s| && name in s[k];
        assert k > 0 && name in s[1..][k - 1];
      }
      1 + Nearest(s[1..], name)
  }

  /** What `get` returns: the binding of the innermost frame holding the
      name, or the "Variable not found" failure. */
  function Lookup(s: Scope, name: string): Result<Value>
  {
    if Bound(s, name) then Ok(s[Nearest(s, name)][name]) else Err(VariableNotFound(name))
  }

  /** `define`: bind in the innermost frame only. */
  function Define(s: Scope, name: string, v: Value): (r: Scope)
    requires |s| > 0
    ensures |r| == |s| && r[1..] == s[1..]
    ensures r[0] == s[0][name := v]
  {
    s[0 := s[0][name := v]]
  }

  /** `set`: overwrite the binding in the innermost frame holding the name;
      nothing changes when no frame holds it. */
  function Assign(s: Scope, name: string, v: Value): (r: Scope)
    ensures |r| == |s|
  {
    if Bound(s, name) then
      var i := Nearest(s, name);
      s[i := s[i][name := v]]
    else s
  }

  /** The innermost binding wins: a name bound in the first frame is looked
      up there, and otherwise the lookup continues in the rest of the chain. */
  lemma {:induction false} LookupWalksChain(s: Scope, name: string)
    requires |s| > 0
    ensures name in s[0] ==> Lookup(s, name) == Ok(s[0][name])
    ensures name !in s[0] ==> Lookup(s, name) == Lookup(s[1..], name)
  {
    if name !in s[0] {
      BoundTail(s, name);
    }
  }

  /** After `define(n, v)`, `get(n)` yields `v`, and every other name looks
      up as it did before. */
  lemma {:induction false} DefineThenLookup(s: Scope, name: string, v: Value, other: string)
    requires |s| > 0
    ensures Lookup(Define(s, name, v), name) == Ok(v)
    ensures other != name ==> Lookup(Define(s, name, v), other) == Lookup(s, other)
  {
    var d := Define(s, name, v);
    LookupWalksChain(d, name);
    LookupWalksChain(d, other);
    LookupWalksChain(s, other);
  }

  /** `set` succeeds exactly when the name is bound; it then changes only the
      binding of that name in the innermost frame holding it, after which the
      name looks up as the new value. */
  lemma {:induction false} AssignUpdatesNearest(s: Scope, name: string, v: Value)
    requires Bound(s, name)
    ensures forall j :: 0 <= j < |s| && j != Nearest(s, name) ==> Assign(s, name, v)[j] == s[j]
    ensures Assign(s, name, v)[Nearest(s, name)] == s[Nearest(s, name)][name := v]
    ensures Lookup(Assign(s, name, v), name) == Ok(v)
  {
    var i := Nearest(s, name);
    var r := Assign(s, name, v);
    assert Bound(r, name) by { assert name in r[i]; }
    assert forall j :: 0 <= j < i ==> name !in r[j];
    NearestUnique(r, name, i);
  }

  /** The innermost-binding position is the one with no binding before it. */
  lemma {:induction false} NearestUnique(s: Scope, name: string, i: nat)
    requires i < |s| && name in s[i]
    requires forall j :: 0 <= j < i ==> name !in s[j]
    ensures Bound(s, name) && Nearest(s, name) == i
  {
    assert Bound(s, name) by { assert name in s[i]; }
    if i > 0 {
      assert name in s[1..][i - 1];
      NearestUnique(s[1..], name, i - 1);
    }
  }

  /** A name missing from the first frame is bound in the chain exactly when
      it is bound in the rest of it, and then sits one frame further out. */
  lemma {:induction false} BoundTail(s: Scope, name: string)
    requires |s| > 0 && name !in s[0]
    ensures Bound(s, name) <==> Bound(s[1..], name)
    ensures Bound(s, name) ==> Nearest(s, name) == 1 + Nearest(s[1..], name)
  {
    if Bound(s[1..], name) {
      var k :| 0 <= k < |s[1..]| && name in s[1..][k];
      assert name in s[k + 1];
    }
    if Bound(s, name) {
      var k :| 0 <= k < |s| && name in s[k];
      assert k > 0 && name in s[1..][k - 1];
    }
  }

  /** `set` on a chain whose first frame does not hold the name is `set` on
      the rest of the chain. */
  lemma {:induction false} AssignWalksChain(s: Scope, name: string, v: Value)
    requires |s| > 0 && name !in s[0]
    ensures Assign(s, name, v) == [s[0]] + Assign(s[1..], name, v)
    ensures Bound(s, name) <==> Bound(s[1..], name)
  {
    BoundTail(s, name);
    if Bound(s, name) {
      assert Assign(s, name, v) == [s[0]] + Assign(s[1..], name, v);
    } else {
      assert s == [s[0]] + s[1..];
    }
  }
}
