/**
 * The dependency-injection container: a table of registrations (interface to
 * implementation, singleton or not) and a cache of instances, and `resolve`,
 * which builds an implementation by resolving each annotated constructor
 * parameter in turn.
 *
 * Python's `inspect.signature` is replaced by `signatures`, which gives each
 * implementation's constructor parameters after `self`; an implementation it
 * does not list takes none.  Resolution terminates because the caller supplies a
 * ghost `rank` under which every registered type's annotated dependencies rank
 * lower than the type itself: the dependency graph is acyclic.
 */
module DiContainer {
  import opened Wrappers

  /** A Python type object, the key of both tables. */
  type TypeName = string

  /**
   * A constructor parameter after `self`: its name, its annotation, and whether a
   * call has to supply it (it has no default and is neither `*args` nor `**kwargs`).
   */
  datatype Param = Param(name: string, annotation: Option<TypeName>, required: bool)

  /** `{'implementation': ..., 'singleton': ...}`. */
  datatype Registration = Registration(implementation: TypeName, singleton: bool)

  /** The exceptions `resolve` raises: `ValueError` for a type nobody registered, `TypeError` for an argument the call leaves out. */
  datatype ResolveError = NoRegistration(missingType: TypeName) | MissingArgument(implementation: TypeName, parameter: string)

  /** An object the container built, or one handed to it. */
  class Object {
    const kind: TypeName
    const args: map<string, Object>

    constructor (kind: TypeName, args: map<string, Object>)
      ensures this.kind == kind && this.args == args
    {
      this.kind := kind;
      this.args := args;
    }
  }

  /** The names of the annotated parameters: the keyword arguments `resolve` passes. */
  function AnnotatedNames(ps: seq<Param>): (r: set<string>)
    ensures forall x :: x in r <==> exists p :: p in ps && p.annotation.Some? && p.name == x
  {
    set p | p in ps && p.annotation.Some? :: p.name
  }

  /** The first parameter the call must supply but `resolve` does not: required and unannotated. */
  function FirstMissing(ps: seq<Param>): (r: Option<string>)
    ensures r.None? <==> forall k :: 0 <= k < |ps| ==> !(ps[k].required && ps[k].annotation.None?)
    ensures r.Some? ==> exists k :: 0 <= k < |ps| && ps[k].required && ps[k].annotation.None? && ps[k].name == r.value
  {
    if ps == [] then None
    else if ps[0].required && ps[0].annotation.None? then Some(ps[0].name)
    else FirstMissing(ps[1..])
  }

  lemma AnnotatedNamesSnoc(ps: seq<Param>, p: Param)
    ensures AnnotatedNames(ps + [p]) == AnnotatedNames(ps) + if p.annotation.Some? then {p.name} else {}
  {
    var qs := ps + [p];
    forall x | x in AnnotatedNames(qs) ensures x in AnnotatedNames(ps) || (p.annotation.Some? && x == p.name) {
      var q :| q in qs && q.annotation.Some? && q.name == x;
      if q in ps {
        assert x in AnnotatedNames(ps);
      }
    }
    forall x | x in AnnotatedNames(ps) ensures x in AnnotatedNames(qs) {
      var q :| q in ps && q.annotation.Some? && q.name == x;
      assert q in qs;
    }
    if p.annotation.Some? {
      assert p in qs;
    }
  }

  /** One more parameter adds its name when it is annotated. */
  lemma AnnotatedNamesStep(ps: seq<Param>, k: nat)
    requires k < |ps|
    ensures AnnotatedNames(ps[..k + 1]) == AnnotatedNames(ps[..k]) + if ps[k].annotation.Some? then {ps[k].name} else {}
  {
    assert ps[..k + 1] == ps[..k] + [ps[k]];
    AnnotatedNamesSnoc(ps[..k], ps[k]);
  }

  /** The keyword arguments after one more parameter: its name is added when it is annotated. */
  lemma ArgsAdd<V>(args: map<string, V>, ps: seq<Param>, k: nat, v: V)
    requires k < |ps| && ps[k].annotation.Some? && args.Keys == AnnotatedNames(ps[..k])
    ensures args[ps[k].name := v].Keys == AnnotatedNames(ps[..k + 1])
  {
    AnnotatedNamesStep(ps, k);
  }

  /** An unannotated parameter adds no keyword argument. */
  lemma ArgsSkip<V>(args: map<string, V>, ps: seq<Param>, k: nat)
    requires k < |ps| && ps[k].annotation.None? && args.Keys == AnnotatedNames(ps[..k])
    ensures args.Keys == AnnotatedNames(ps[..k + 1])
  {
    AnnotatedNamesStep(ps, k);
  }

  /** Every annotated parameter names a type that is registered or cached. */
  ghost predicate Available(ps: seq<Param>, registrations: map<TypeName, Registration>, instances: map<TypeName, Object>) {
    forall k :: 0 <= k < |ps| && ps[k].annotation.Some? ==>
      ps[k].annotation.value in registrations || ps[k].annotation.value in instances
  }

  /** Every annotated parameter names a type that ranks below `r`. */
  ghost predicate DependsBelow(rank: map<TypeName, nat>, ps: seq<Param>, r: nat) {
    forall p :: p in ps && p.annotation.Some? ==> p.annotation.value in rank && rank[p.annotation.value] < r
  }

  /**
   * `after` is `before` grown only with singleton types ranked no higher than
   * `top` (or, when `strict`, lower).
   */
  ghost predicate GrownFrom(before: map<TypeName, Object>, after: map<TypeName, Object>,
                            registrations: map<TypeName, Registration>, rank: map<TypeName, nat>, top: nat, strict: bool) {
    && (forall u :: u in before ==> u in after && after[u] == before[u])
    && (forall u :: u in after && u !in before ==>
          && u in registrations && registrations[u].singleton
          && u in rank && (if strict then rank[u] < top else rank[u] <= top))
  }

  /** Growth below `top`, then growth up to a rank below `top`, is growth below `top`. */
  lemma GrownTrans(a: map<TypeName, Object>, b: map<TypeName, Object>, c: map<TypeName, Object>,
                   registrations: map<TypeName, Registration>, rank: map<TypeName, nat>, top: nat, mid: nat)
    requires GrownFrom(a, b, registrations, rank, top, true)
    requires mid < top && GrownFrom(b, c, registrations, rank, mid, false)
    ensures GrownFrom(a, c, registrations, rank, top, true)
  {
  }

  class Container {
    /** The constructor signatures `inspect.signature` would report. */
    const signatures: map<TypeName, seq<Param>>
    var registrations: map<TypeName, Registration>
    var instances: map<TypeName, Object>

    /** `DIContainer()`: both tables start empty. */
    constructor (signatures: map<TypeName, seq<Param>>)
      ensures this.signatures == signatures
      ensures registrations == map[] && instances == map[]
    {
      this.signatures := signatures;
      registrations := map[];
      instances := map[];
    }

    /** The parameters after `self` of an implementation's constructor. */
    function Params(implementation: TypeName): seq<Param> {
      if implementation in signatures then signatures[implementation] else []
    }

    /** Every registered type ranks above the types its implementation's constructor asks for. */
    ghost predicate Acyclic(rank: map<TypeName, nat>)
      reads this
    {
      forall u :: u in registrations ==>
        u in rank && DependsBelow(rank, Params(registrations[u].implementation), rank[u])
    }

    /**
     * Every registered implementation can be built: the call leaves out no
     * required argument, and every annotated parameter names a type that is
     * registered or cached.
     */
    ghost predicate Complete()
      reads this
    {
      CompleteWith(registrations, instances)
    }

    /** Caching more instances keeps the tables complete. */
    lemma CompleteGrows(registrations: map<TypeName, Registration>, before: map<TypeName, Object>, after: map<TypeName, Object>)
      requires forall u :: u in before ==> u in after
      ensures CompleteWith(registrations, before) ==> CompleteWith(registrations, after)
    {
    }

    /** `Complete` for given tables. */
    ghost predicate CompleteWith(registrations: map<TypeName, Registration>, instances: map<TypeName, Object>) {
      forall u :: u in registrations ==>
        && FirstMissing(Params(registrations[u].implementation)) == None
        && Available(Params(registrations[u].implementation), registrations, instances)
    }

    /**
     * The cache changes only by growing, and only with singleton types ranked
     * no higher than `top` (or, when `strict`, lower).
     */
    ghost predicate Grown(before: map<TypeName, Object>, rank: map<TypeName, nat>, top: nat, strict: bool)
      reads this
    {
      GrownFrom(before, instances, registrations, rank, top, strict)
    }

    /** `register(interface_type, implementation_type, singleton)`: replaces any earlier registration of the type. */
    method Register(t: TypeName, implementation: TypeName, singleton: bool := true)
      modifies this
      ensures registrations == old(registrations)[t := Registration(implementation, singleton)]
      ensures instances == old(instances)
    {
      registrations := registrations[t := Registration(implementation, singleton)];
    }

    /** `register_instance(interface_type, instance)`. */
    method RegisterInstance(t: TypeName, instance: Object)
      modifies this
      ensures instances == old(instances)[t := instance]
      ensures registrations == old(registrations)
    {
      instances := instances[t := instance];
    }

    /** A `resolve` failure names a type nobody registered or cached, or an argument a registered implementation's call leaves out. */
    ghost predicate Explained(e: ResolveError)
      reads this
    {
      match e
      case NoRegistration(u) => u !in registrations && u !in instances
      case MissingArgument(i, x) =>
        && (exists u :: u in registrations && registrations[u].implementation == i)
        && FirstMissing(Params(i)) == Some(x)
    }

    /**
     * `resolve(interface_type)`: a cached instance wins; a type with neither an
     * instance nor a registration raises `ValueError`; otherwise every annotated
     * parameter is resolved in order (an error there propagates), the
     * implementation is built from them, and a singleton is cached.
     */
    method Resolve(t: TypeName, ghost rank: map<TypeName, nat>) returns (r: Result<Object, ResolveError>)
      requires t in rank && Acyclic(rank)
      modifies this
      decreases rank[t], 1
      ensures registrations == old(registrations)
      ensures Grown(old(instances), rank, rank[t], false)
      ensures t in old(instances) ==> r == Success(old(instances)[t]) && instances == old(instances)
      ensures t !in old(instances) && t !in registrations ==>
                r == Failure(NoRegistration(t)) && instances == old(instances)
      ensures r.Success? && t !in old(instances) ==>
                && t in registrations
                && fresh(r.value)
                && r.value.kind == registrations[t].implementation
                && FirstMissing(Params(registrations[t].implementation)) == None
                && r.value.args.Keys == AnnotatedNames(Params(registrations[t].implementation))
                && (t in instances <==> registrations[t].singleton)
                && (t in instances ==> instances[t] == r.value)
      ensures r.Failure? && t !in old(instances) ==> t !in instances
      ensures old(Complete()) ==> Complete()
      ensures old(Complete()) && (t in registrations || t in old(instances)) ==> r.Success?
      ensures r.Failure? ==> Explained(r.error)
    {
      if t in instances {
        return Success(instances[t]);
      }
      if t !in registrations {
        return Failure(NoRegistration(t));
      }
      var registration := registrations[t];
      var implementation := registration.implementation;
      var ps := Params(implementation);
      assert DependsBelow(rank, ps, rank[t]);
      var args := ResolveArgs(ps, rank, rank[t]);
      if args.Failure? {
        return Failure(args.error);
      }
      var missing := FirstMissing(ps);
      if missing.Some? {
        return Failure(MissingArgument(implementation, missing.value));
      }
      var instance := new Object(implementation, args.value);
      if registration.singleton {
        instances := instances[t := instance];
      }
      return Success(instance);
    }

    /**
     * The loop of `resolve` over the parameters after `self`: each annotated one
     * is resolved in order, and the first error ends the loop.  Every type asked
     * for ranks below `top`.
     */
    method ResolveArgs(ps: seq<Param>, ghost rank: map<TypeName, nat>, ghost top: nat)
      returns (r: Result<map<string, Object>, ResolveError>)
      requires Acyclic(rank) && DependsBelow(rank, ps, top)
      modifies this
      decreases top, 0
      ensures registrations == old(registrations)
      ensures Grown(old(instances), rank, top, true)
      ensures r.Success? ==> r.value.Keys == AnnotatedNames(ps)
      ensures old(Complete()) ==> Complete()
      ensures && old(Complete())
              && Available(ps, registrations, old(instances))
              ==> r.Success?
      ensures r.Failure? ==> Explained(r.error)
    {
      var params: map<string, Object> := map[];
      var k := 0;
      assert ps[..0] == [];
      assert AnnotatedNames([]) == {};
      while k < |ps|
        invariant 0 <= k <= |ps|
        invariant registrations == old(registrations)
        invariant Grown(old(instances), rank, top, true)
        invariant params.Keys == AnnotatedNames(ps[..k])
      {
        var p := ps[k];
        if p.annotation.None? {
          ArgsSkip(params, ps, k);
        } else {
          assert p in ps;
          var u := p.annotation.value;
          assert Available(ps, registrations, old(instances)) ==> u in registrations || u in instances;
          CompleteGrows(registrations, old(instances), instances);
          ghost var before := instances;
          var resolved := Resolve(u, rank);
          GrownTrans(old(instances), before, instances, registrations, rank, top, rank[u]);
          if resolved.Failure? {
            return Failure(resolved.error);
          }
          ArgsAdd(params, ps, k, resolved.value);
          params := params[p.name := resolved.value];
        }
        k := k + 1;
      }
      assert ps[..k] == ps;
      CompleteGrows(registrations, old(instances), instances);
      return Success(params);
    }
  }

  // ---------------------------------------------------------------------------
  // The container's rules, call by call
  // ---------------------------------------------------------------------------

  /** After `register_instance(T, x)`, `resolve(T)` returns `x` whatever the registrations say. */
  method InstanceWins(c: Container, t: TypeName, x: Object, ghost rank: map<TypeName, nat>) returns (r: Result<Object, ResolveError>)
    requires t in rank && c.Acyclic(rank)
    modifies c
    ensures r == Success(x)
  {
    c.RegisterInstance(t, x);
    r := c.Resolve(t, rank);
  }

  /** A type with neither an instance nor a registration raises `ValueError`. */
  method UnregisteredRaises(c: Container, t: TypeName, ghost rank: map<TypeName, nat>) returns (r: Result<Object, ResolveError>)
    requires t in rank && c.Acyclic(rank)
    requires t !in c.instances && t !in c.registrations
    modifies c
    ensures r == Failure(NoRegistration(t))
  {
    r := c.Resolve(t, rank);
  }

  /** A singleton is built once: the second `resolve` returns the object the first one built. */
  method SingletonCached(c: Container, t: TypeName, ghost rank: map<TypeName, nat>)
    returns (first: Result<Object, ResolveError>, second: Result<Object, ResolveError>)
    requires t in rank && c.Acyclic(rank)
    requires t in c.registrations && c.registrations[t].singleton
    modifies c
    ensures first.Success? ==> second == first
    ensures old(c.Complete()) ==> first.Success? && second == first
  {
    first := c.Resolve(t, rank);
    second := c.Resolve(t, rank);
  }

  /** A non-singleton is built anew by every `resolve` and never enters the cache. */
  method TransientFresh(c: Container, t: TypeName, ghost rank: map<TypeName, nat>)
    returns (first: Result<Object, ResolveError>, second: Result<Object, ResolveError>)
    requires t in rank && c.Acyclic(rank)
    requires t in c.registrations && !c.registrations[t].singleton && t !in c.instances
    modifies c
    ensures first.Success? && second.Success? ==> first.value != second.value
    ensures old(c.Complete()) ==> first.Success? && second.Success? && first.value != second.value
    ensures t !in c.instances
  {
    first := c.Resolve(t, rank);
    second := c.Resolve(t, rank);
  }

  /** Registering a type again after its singleton was cached does not change what `resolve` returns. */
  method ReregisterAfterCache(c: Container, t: TypeName, other: TypeName, singleton: bool, ghost rank: map<TypeName, nat>)
    returns (first: Result<Object, ResolveError>, second: Result<Object, ResolveError>)
    requires t in rank && c.Acyclic(rank)
    requires DependsBelow(rank, c.Params(other), rank[t])
    requires t in c.registrations && c.registrations[t].singleton
    modifies c
    ensures first.Success? ==> second == first
    ensures old(c.Complete()) ==> first.Success? && second == first
  {
    first := c.Resolve(t, rank);
    c.Register(t, other, singleton);
    second := c.Resolve(t, rank);
  }

  /** The parameter of `BImpl`'s constructor in the example: `a: A`, required. */
  const ExampleParam := Param("a", Some("A"), true)

  /** The tables of the example: `A` is a singleton `AImpl`; `B` a transient `BImpl` that asks for an `A`. */
  ghost predicate ExampleTables(c: Container)
    reads c
  {
    && c.signatures == map["BImpl" := [ExampleParam]]
    && c.registrations == map["A" := Registration("AImpl", true), "B" := Registration("BImpl", false)]
    && c.instances == map[]
  }

  lemma ExampleComplete(c: Container)
    requires ExampleTables(c)
    ensures c.Complete() && c.Acyclic(map["A" := 0, "B" := 1])
  {
    assert c.Params("AImpl") == [] && c.Params("BImpl") == [ExampleParam];
    assert Available([ExampleParam], c.registrations, c.instances);
  }

  /**
   * A complete container resolves: `B`'s constructor asks for an `A`, both are
   * registered, and `resolve(B)` builds a `BImpl` whose argument `a` was resolved.
   */
  method CompleteExample() returns (r: Result<Object, ResolveError>)
    ensures r.Success? && r.value.kind == "BImpl" && r.value.args.Keys == {"a"}
  {
    var c := new Container(map["BImpl" := [ExampleParam]]);
    c.Register("A", "AImpl");
    c.Register("B", "BImpl", false);
    ExampleComplete(c);
    r := c.Resolve("B", map["A" := 0, "B" := 1]);
    AnnotatedNamesSnoc([], ExampleParam);
    assert [] + [ExampleParam] == [ExampleParam];
  }
}
