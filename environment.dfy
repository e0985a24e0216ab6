/** `Environment` of environment.cpp: one frame of bindings and a pointer to
    the enclosing frame. `define` writes this frame; `set`, `get` and `has`
    walk outwards along the parent pointers. */
module Environments {
  import opened Results
  import opened Values
  import opened Scopes

  class Environment {
    /** The frame's own bindings (`std::map<std::string, Value> map`). */
    var vars: map<string, Value>
    /** The enclosing frame, null for the global one. */
    const parent: Environment?
    /** Every frame reachable through `parent`. */
    ghost const ancestors: set<Environment>
    /** The number of frames above this one. */
    ghost const depth: nat

    /** The parent chain is finite and acyclic: each frame's ancestors are
        its parent and the parent's ancestors, all strictly shallower. */
    ghost predicate Valid()
      decreases depth
    {
      (forall a :: a in ancestors ==> a.depth < depth) && this !in ancestors &&
      if parent == null then ancestors == {} && depth == 0
      else ancestors == {parent} + parent.ancestors && depth == parent.depth + 1 && parent.Valid()
    }

    /** The bindings of the chain, this frame first. */
    ghost function Frames(): (s: Scope)
      reads this, ancestors
      requires Valid()
      ensures |s| == depth + 1 && s[0] == vars && s == [vars] + Outer()
      decreases depth, 1
    {
      [vars] + Outer()
    }

    /** The bindings of the enclosing frames, which a write to this frame
        leaves as they are. */
    ghost function Outer(): (s: Scope)
      reads ancestors
      requires Valid()
      ensures |s| == depth
      decreases depth, 0
    {
      if parent == null then [] else parent.Frames()
    }

    /** `Environment()`: a global frame with no bindings. */
    constructor Root()
      ensures Valid() && Frames() == [map[]]
    {
      vars := map[];
      parent := null;
      ancestors := {};
      depth := 0;
    }

    /** `Environment(Ptr parent)`: an empty frame inside `p`. */
    constructor Child(p: Environment)
      requires p.Valid()
      ensures Valid() && parent == p && ancestors == {p} + p.ancestors
      ensures Outer() == p.Frames() && Frames() == [map[]] + p.Frames()
    {
      vars := map[];
      parent := p;
      ancestors := {p} + p.ancestors;
      depth := p.depth + 1;
    }

    /** `has`: some frame of the chain binds the name. */
    function Has(name: string): (b: bool)
      reads this, ancestors
      requires Valid()
      ensures b <==> Bound(Frames(), name)
      decreases depth
    {
      if name in vars then true
      else if parent != null then
        BoundTail(Frames(), name);
        parent.Has(name)
      else false
    }

    /** `get`: the value in the innermost frame binding the name, or
        "Variable not found". */
    function Get(name: string): (r: Result<Value>)
      reads this, ancestors
      requires Valid()
      ensures r.Ok? <==> Bound(Frames(), name)
      ensures r.Ok? ==> r.value == Frames()[Nearest(Frames(), name)][name]
      ensures r.Err? ==> r.error == VariableNotFound(name)
      ensures r == Lookup(Frames(), name)
      decreases depth
    {
      if name in vars then Ok(vars[name])
      else if parent != null then
        BoundTail(Frames(), name);
        parent.Get(name)
      else Err(VariableNotFound(name))
    }

    /** `define`: bind in this frame, overwriting any binding it had here;
        the enclosing frames are untouched. */
    method Define(name: string, value: Value)
      requires Valid()
      modifies this
      ensures Valid() && vars == old(vars)[name := value]
      ensures Frames() == Scopes.Define(old(Frames()), name, value)
    {
      vars := vars[name := value];
    }

    /** `set`: overwrite the binding in the innermost frame that has one and
        report whether there was one; with none, nothing changes. */
    method Set(name: string, value: Value) returns (ok: bool)
      requires Valid()
      modifies this, ancestors
      ensures Valid()
      ensures ok <==> old(Bound(Frames(), name))
      ensures Frames() == Assign(old(Frames()), name, value)
      decreases depth
    {
      if name in vars {
        ghost var s := Frames();
        vars := vars[name := value];
        assert Nearest(s, name) == 0;
        return true;
      } else if parent != null {
        ghost var s := Frames();
        assert s == [vars] + parent.Frames();
        AssignWalksChain(s, name, value);
        ok := parent.Set(name, value);
        assert Frames() == [vars] + parent.Frames();
      } else {
        assert !Bound(Frames(), name);
        return false;
      }
    }
  }
}
