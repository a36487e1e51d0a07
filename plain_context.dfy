/**
 * The naming context of src/xlutil/context.py: name-to-object bindings at
 * one level and a mutable parent, which Python lets be any object.  Unlike
 * the copy modelled in LockedContext, its lookup reaches the parent by
 * subscripting it: a mapping answers with its value or KeyError, while a
 * Context, like any other object without __getitem__, raises TypeError.
 * synchronize() does nothing and is left out.
 */
module PlainContext {
  import opened Common

  datatype Error = ContextError(msg: string) | TypeError | KeyError(name: string)

  /**
   * What the parent attribute can hold: None, a Context, a mapping (a dict,
   * say) from names to objects, or some other object that cannot be
   * subscripted.
   */
  datatype Parent<V> = NoParent | ContextParent(c: Context<V>) | MappingParent(m: map<string, V>) | OtherParent

  class Context<V> {
    var ctx: map<string, V>
    var parent: Parent<V>

    /** Context(parent=None): an empty level under parent. */
    constructor (p: Parent<V> := NoParent)
      ensures ctx == map[] && parent == p
    {
      ctx := map[];
      parent := p;
    }

    /** bind: stores name -> obj at this level and returns this context. */
    method Bind(name: Option<string>, obj: Option<V>) returns (r: Result<Context<V>, Error>)
      modifies this`ctx
      ensures name.None? || obj.None? ==> r == Err(ContextError("name or object is None")) && ctx == old(ctx)
      ensures name.Some? && obj.Some? ==> r == Ok(this) && ctx == old(ctx)[name.value := obj.value]
    {
      if name.None? || obj.None? {
        return Err(ContextError("name or object is None"));
      }
      ctx := ctx[name.value := obj.value];
      return Ok(this);
    }

    /**
     * lookup: this level's binding, or None when the name is unbound and
     * there is no parent.  Otherwise the fallback `parent[name]` gives a
     * mapping parent's value for name or KeyError, and raises TypeError for
     * any other parent.
     */
    method Lookup(name: Option<string>) returns (r: Result<Option<V>, Error>)
      ensures name.None? <==> r == Err(ContextError("name cannot be None"))
      ensures name.Some? && name.value in ctx ==> r == Ok(Some(ctx[name.value]))
      ensures r == Ok(None) <==> name.Some? && name.value !in ctx && parent.NoParent?
      ensures r.Ok? && r.value.Some? && name.value !in ctx ==>
        parent.MappingParent? && name.value in parent.m && r.value.value == parent.m[name.value]
      ensures name.Some? && name.value !in ctx && parent.MappingParent? && name.value in parent.m ==>
        r == Ok(Some(parent.m[name.value]))
      ensures r.Err? && r.error.KeyError? <==>
        name.Some? && name.value !in ctx && parent.MappingParent? && name.value !in parent.m
      ensures r.Err? && r.error.KeyError? ==> r.error.name == name.value
      ensures r == Err(TypeError) <==>
        name.Some? && name.value !in ctx && (parent.ContextParent? || parent.OtherParent?)
    {
      if name.None? {
        return Err(ContextError("name cannot be None"));
      }
      var obj: Option<V> := None;
      if name.value in ctx {
        obj := Some(ctx[name.value]);
      } else {
        match parent
        case NoParent =>
        case MappingParent(m) =>
          if name.value !in m {
            return Err(KeyError(name.value));
          }
          obj := Some(m[name.value]);
        case _ =>
          return Err(TypeError);
      }
      return Ok(obj);
    }

    /** unbind: removes this level's binding; an absent name raises KeyError. */
    method Unbind(name: Option<string>) returns (s: Status<Error>)
      modifies this`ctx
      ensures name.None? ==> s == Failure(ContextError("name is None")) && ctx == old(ctx)
      ensures name.Some? && name.value !in old(ctx) ==> s == Failure(KeyError(name.value)) && ctx == old(ctx)
      ensures name.Some? && name.value in old(ctx) ==> s == Success && ctx == old(ctx) - {name.value}
    {
      if name.None? {
        return Failure(ContextError("name is None"));
      }
      if name.value !in ctx {
        return Failure(KeyError(name.value));
      }
      ctx := ctx - {name.value};
      return Success;
    }

    /** size: the number of bindings at this level. */
    method Size() returns (n: nat)
      ensures n == |ctx|
      ensures n == 0 <==> ctx == map[]
    {
      n := |ctx|;
      if n == 0 {
        assert ctx.Keys == {};
      } else {
        assert ctx != map[];
      }
    }

    /** The parent setter: any value, None included, replaces the parent. */
    method SetParent(newParent: Parent<V>)
      modifies this`parent
      ensures parent == newParent
    {
      parent := newParent;
    }
  }

  /** Two binds of distinct names at one level give size 2, each found again. */
  method SimpleBindings() returns (n: nat, foo: Result<Option<string>, Error>, bar: Result<Option<string>, Error>)
    ensures n == 2
    ensures foo == Ok(Some("that was foo")) && bar == Ok(Some("that was bar"))
  {
    var c := new Context<string>();
    var b := c.Bind(Some("foo"), Some("that was foo"));
    b := c.Bind(Some("bar"), Some("that was bar"));
    assert c.ctx.Keys == {"foo", "bar"};
    n := c.Size();
    foo := c.Lookup(Some("foo"));
    bar := c.Lookup(Some("bar"));
  }

  /** A name bound only in the parent is not found through the child. */
  method ParentFallbackFails() returns (r: Result<Option<string>, Error>)
    ensures r == Err(TypeError)
  {
    var root := new Context<string>();
    var child := new Context<string>(ContextParent(root));
    var b := root.Bind(Some("wombat"), Some("Freddy Boy"));
    r := child.Lookup(Some("wombat"));
  }

  /** A dict as parent answers for the names it holds. */
  method MappingParentAnswers() returns (found: Result<Option<string>, Error>, missing: Result<Option<string>, Error>)
    ensures found == Ok(Some("Freddy Boy")) && missing == Err(KeyError("emu"))
  {
    var child := new Context<string>(MappingParent(map["wombat" := "Freddy Boy"]));
    found := child.Lookup(Some("wombat"));
    missing := child.Lookup(Some("emu"));
  }
}
