/**
 * The lock-protected naming context of xlutil/context.py: a map of
 * name-to-object bindings at one level, with a mutable parent reference;
 * lookup falls back through the parent chain recursively.  The lock is
 * dropped: every operation is modelled as one sequential step.
 */
module LockedContext {
  import opened Common

  datatype Error = ValueError(msg: string) | KeyError(name: string)

  /** What the caller passes as a parent: Python accepts any object here. */
  datatype ParentArg<V> = NoParent | ContextArg(c: Context<V>) | OtherObject

  /**
   * The reference meaning of a lookup: the binding of n at the first level
   * (innermost first) that binds it.
   */
  function Find<V>(levels: seq<map<string, V>>, n: string): Option<V>
  {
    if |levels| == 0 then None
    else if n in levels[0] then Some(levels[0][n])
    else Find(levels[1..], n)
  }

  /** Lookup of an optional name: None is refused before anything is read. */
  function Resolve<V>(levels: seq<map<string, V>>, name: Option<string>): Result<Option<V>, Error>
  {
    if name.None? then Err(ValueError("name may not be None")) else Ok(Find(levels, name.value))
  }

  /** Find returns v exactly when some level binds n to v and no inner level binds n. */
  lemma {:induction false} FindIsFirstBinding<V>(levels: seq<map<string, V>>, n: string, v: V)
    ensures Find(levels, n) == Some(v) <==>
      exists i :: 0 <= i < |levels| && n in levels[i] && levels[i][n] == v &&
        forall j :: 0 <= j < i ==> n !in levels[j]
  {
    if |levels| > 0 {
      FindIsFirstBinding(levels[1..], n, v);
      if Find(levels, n) == Some(v) {
        if n !in levels[0] {
          var i :| 0 <= i < |levels| - 1 && n in levels[1..][i] && levels[1..][i][n] == v &&
            forall j :: 0 <= j < i ==> n !in levels[1..][j];
          assert forall j :: 0 <= j < i + 1 ==> n !in levels[j] by {
            forall j | 0 <= j < i + 1 ensures n !in levels[j] {
              if j > 0 { assert levels[j] == levels[1..][j - 1]; }
            }
          }
          assert n in levels[i + 1] && levels[i + 1][n] == v;
        } else {
          assert n in levels[0] && levels[0][n] == v;
        }
      }
      if exists i :: 0 <= i < |levels| && n in levels[i] && levels[i][n] == v &&
          forall j :: 0 <= j < i ==> n !in levels[j] {
        var i :| 0 <= i < |levels| && n in levels[i] && levels[i][n] == v &&
          forall j :: 0 <= j < i ==> n !in levels[j];
        if i > 0 {
          assert n !in levels[0];
          assert n in levels[1..][i - 1] && levels[1..][i - 1][n] == v;
          assert forall j :: 0 <= j < i - 1 ==> n !in levels[1..][j] by {
            forall j | 0 <= j < i - 1 ensures n !in levels[1..][j] {
              assert levels[1..][j] == levels[j + 1];
            }
          }
        }
      }
    }
  }

  /** Find returns None exactly when no level binds n. */
  lemma {:induction false} FindNoneIsUnbound<V>(levels: seq<map<string, V>>, n: string)
    ensures Find(levels, n).None? <==> forall i :: 0 <= i < |levels| ==> n !in levels[i]
  {
    if |levels| > 0 {
      FindNoneIsUnbound(levels[1..], n);
      assert forall i :: 1 <= i < |levels| ==> levels[i] == levels[1..][i - 1];
    }
  }

  /**
   * A binding at this level masks the parents; removing it makes the
   * nearest ancestor's binding visible again.
   */
  lemma MaskAndUncover<V>(m: map<string, V>, ancestors: seq<map<string, V>>, n: string, v: V)
    ensures Resolve([m[n := v]] + ancestors, Some(n)) == Ok(Some(v))
    ensures Resolve([m - {n}] + ancestors, Some(n)) == Resolve(ancestors, Some(n))
  {
    assert ([m - {n}] + ancestors)[1..] == ancestors;
  }

  /**
   * parent links, from this context outward, as a finite chain that ends
   * with a context without a parent: the parent chain is acyclic.
   */
  ghost predicate IsChain<V>(chain: seq<Context<V>>)
    reads chain`parent
  {
    |chain| > 0 && chain[|chain| - 1].parent == null &&
    forall i :: 0 <= i < |chain| - 1 ==> chain[i].parent == chain[i + 1]
  }

  /** The bindings of each context of the chain, in chain order. */
  ghost function Levels<V>(chain: seq<Context<V>>): (levels: seq<map<string, V>>)
    reads chain`ctx
    ensures |levels| == |chain|
    ensures forall i :: 0 <= i < |chain| ==> levels[i] == chain[i].ctx
  {
    if |chain| == 0 then [] else [chain[0].ctx] + Levels(chain[1..])
  }

  class Context<V> {
    var ctx: map<string, V>
    var parent: Context?<V>

    /** Context(parent) with parent a Context or None. */
    constructor (p: Context?<V>)
      ensures ctx == map[] && parent == p
    {
      ctx := map[];
      parent := p;
    }

    /** Context(parent): a parent that is neither a Context nor None is refused. */
    static method New(arg: ParentArg<V>) returns (r: Result<Context<V>, Error>)
      ensures arg.OtherObject? ==> r == Err(ValueError("parent must be a Context"))
      ensures !arg.OtherObject? ==> r.Ok? && fresh(r.value) && r.value.ctx == map[]
      ensures arg.NoParent? ==> r.Ok? && r.value.parent == null
      ensures arg.ContextArg? ==> r.Ok? && r.value.parent == arg.c
    {
      match arg
      case OtherObject => r := Err(ValueError("parent must be a Context"));
      case NoParent =>
        var c := new Context(null);
        r := Ok(c);
      case ContextArg(p) =>
        var c := new Context(p);
        r := Ok(c);
    }

    /** bind: stores name -> value at this level and returns this context. */
    method Bind(name: Option<string>, value: Option<V>) returns (r: Result<Context<V>, Error>)
      modifies this`ctx
      ensures name.None? ==> r == Err(ValueError("name may not be None")) && ctx == old(ctx)
      ensures name.Some? && value.None? ==> r == Err(ValueError("value may not be None")) && ctx == old(ctx)
      ensures name.Some? && value.Some? ==> r == Ok(this) && ctx == old(ctx)[name.value := value.value]
    {
      if name.None? {
        return Err(ValueError("name may not be None"));
      }
      if value.None? {
        return Err(ValueError("value may not be None"));
      }
      ctx := ctx[name.value := value.value];
      return Ok(this);
    }

    /**
     * lookup: this level's binding if there is one, otherwise the parent's
     * lookup, otherwise None.  chain is this context's parent chain.
     */
    method Lookup(name: Option<string>, ghost chain: seq<Context<V>>) returns (r: Result<Option<V>, Error>)
      requires IsChain(chain) && chain[0] == this
      ensures r == Resolve(Levels(chain), name)
      decreases |chain|
    {
      if name.None? {
        return Err(ValueError("name may not be None"));
      }
      var value: Option<V> := None;
      assert Levels(chain)[0] == ctx;
      if name.value in ctx {
        value := Some(ctx[name.value]);
        assert value == Find(Levels(chain), name.value);
      } else if parent != null {
        assert chain[1] == parent;
        assert IsChain(chain[1..]);
        assert Levels(chain)[1..] == Levels(chain[1..]);
        var up := parent.Lookup(name, chain[1..]);
        value := up.value;
        assert value == Find(Levels(chain), name.value);
      } else {
        assert |chain| == 1 && Levels(chain)[1..] == [];
        assert value == Find(Levels(chain), name.value);
      }
      return Ok(value);
    }

    /** unbind: removes this level's binding; an absent name raises KeyError. */
    method Unbind(name: Option<string>) returns (s: Status<Error>)
      modifies this`ctx
      ensures name.None? ==> s == Failure(ValueError("name may not be None")) && ctx == old(ctx)
      ensures name.Some? && name.value !in old(ctx) ==> s == Failure(KeyError(name.value)) && ctx == old(ctx)
      ensures name.Some? && name.value in old(ctx) ==> s == Success && ctx == old(ctx) - {name.value}
    {
      if name.None? {
        return Failure(ValueError("name may not be None"));
      }
      if name.value !in ctx {
        return Failure(KeyError(name.value));
      }
      ctx := ctx - {name.value};
      return Success;
    }

    /** `in`: only this level is consulted, and None is never contained. */
    method Contains(whatever: Option<string>) returns (retVal: bool)
      ensures retVal <==> whatever.Some? && whatever.value in ctx
    {
      retVal := false;
      if whatever.Some? {
        retVal := whatever.value in ctx;
      }
    }

    /** keys: a list holding each name bound at this level exactly once. */
    method Keys() returns (keys: seq<string>)
      ensures |keys| == |ctx|
      ensures forall k :: k in keys <==> k in ctx
      ensures forall i, j :: 0 <= i < j < |keys| ==> keys[i] != keys[j]
    {
      keys := [];
      var rest := ctx.Keys;
      while rest != {}
        invariant rest <= ctx.Keys
        invariant forall k :: k in keys <==> k in ctx && k !in rest
        invariant |rest| + |keys| == |ctx|
        invariant forall i, j :: 0 <= i < j < |keys| ==> keys[i] != keys[j]
        decreases |rest|
      {
        var k :| k in rest;
        keys := keys + [k];
        rest := rest - {k};
      }
    }

    /** len: the number of bindings at this level. */
    method Len() returns (val: nat)
      ensures val == |ctx|
      ensures val == 0 <==> ctx == map[]
    {
      val := |ctx|;
      if val == 0 {
        assert ctx.Keys == {};
      } else {
        assert ctx != map[];
      }
    }

    /** The parent setter: replaces the parent; a non-Context is refused. */
    method SetParent(arg: ParentArg<V>) returns (s: Status<Error>)
      modifies this`parent
      ensures arg.OtherObject? ==> s == Failure(ValueError("new parent must be a Context or None")) && parent == old(parent)
      ensures arg.NoParent? ==> s == Success && parent == null
      ensures arg.ContextArg? ==> s == Success && parent == arg.c
    {
      match arg
      case OtherObject => return Failure(ValueError("new parent must be a Context or None"));
      case NoParent =>
        parent := null;
        return Success;
      case ContextArg(p) =>
        parent := p;
        return Success;
    }
  }

  /** Find over a chain of three levels, spelled out. */
  lemma FindThree<V>(levels: seq<map<string, V>>, n: string)
    requires |levels| == 3
    ensures Find(levels, n) ==
      if n in levels[0] then Some(levels[0][n]) else if n in levels[1] then Some(levels[1][n])
      else if n in levels[2] then Some(levels[2][n]) else None
  {
    var l1, l2 := levels[1..], levels[1..][1..];
    assert l1[0] == levels[1] && l2[0] == levels[2] && l2[1..] == [];
    assert Find(l2, n) == if n in levels[2] then Some(levels[2][n]) else None;
  }

  /** Find over a single level. */
  lemma FindOne<V>(levels: seq<map<string, V>>, n: string)
    requires |levels| == 1
    ensures Find(levels, n) == if n in levels[0] then Some(levels[0][n]) else None
  {
    assert levels[1..] == [];
  }

  /**
   * Three nested contexts binding the same name: the innermost binding
   * wins, and unbinding it uncovers the parent's binding.
   */
  method NestedUnbind() returns (r1: Result<Option<string>, Error>, r2: Result<Option<string>, Error>)
    ensures r1 == Ok(Some("bar2")) && r2 == Ok(Some("bar1"))
  {
    var root := new Context<string>(null);
    var ctx1 := new Context<string>(root);
    var ctx2 := new Context<string>(ctx1);
    ghost var chain := [ctx2, ctx1, root];
    var b, s;
    b := root.Bind(Some("foo"), Some("bar0"));
    b := ctx1.Bind(Some("foo"), Some("bar1"));
    b := ctx2.Bind(Some("foo"), Some("bar2"));
    assert IsChain(chain);
    r1 := ctx2.Lookup(Some("foo"), chain);
    FindThree(Levels(chain), "foo");
    assert r1 == Ok(Some("bar2"));
    s := ctx2.Unbind(Some("foo"));
    assert "foo" !in ctx2.ctx;
    r2 := ctx2.Lookup(Some("foo"), chain);
    FindThree(Levels(chain), "foo");
    assert r2 == Ok(Some("bar1"));
  }

  /** A name bound at the root is found two levels down until the chain is cut. */
  method CutParent() returns (r1: Result<Option<string>, Error>, r2: Result<Option<string>, Error>)
    ensures r1 == Ok(Some("Freddy Boy")) && r2 == Ok(None)
  {
    var root := new Context<string>(null);
    var ctx1 := new Context<string>(root);
    var ctx2 := new Context<string>(ctx1);
    var b := root.Bind(Some("wombat"), Some("Freddy Boy"));
    assert IsChain([ctx2, ctx1, root]);
    r1 := ctx2.Lookup(Some("wombat"), [ctx2, ctx1, root]);
    FindThree(Levels([ctx2, ctx1, root]), "wombat");
    var s := ctx2.SetParent(NoParent);
    assert IsChain([ctx2]);
    r2 := ctx2.Lookup(Some("wombat"), [ctx2]);
    FindOne(Levels([ctx2]), "wombat");
  }
}
