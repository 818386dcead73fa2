/**
 * The Reference Object: a value that is either given inline or named by a
 * `$ref` string, how such a string is resolved against a document, and how
 * a reference is followed during validation.
 */
module Reference {
  import opened Wrappers
  import opened Strings
  import opened SortedMap
  import opened Validation
  import opened Helpers

  datatype RefOr<T> = Ref(reference: string) | Item(item: T)

  datatype ResolveError = NotFound(reference: string) | ExternalUnsupported(reference: string)

  /** `impl Display for ResolveError`. */
  function ResolveErrorText(e: ResolveError): string
  {
    match e
    case NotFound(r) => "reference `" + r + "` not found"
    case ExternalUnsupported(r) => "resolving of an external reference `" + r + "` is not supported"
  }

  /**
   * What the document's lookup of a `$ref` yields. `Diverges` stands for a
   * chain of references longer than the fuel given: the source follows such
   * chains without bound, so a cycle never returns there.
   */
  datatype Lookup<T> = Found(item: T) | Missing | Diverges

  /** What `get_item` yields, with divergence of the lookup made explicit. */
  datatype Resolved<T> = Resolved(item: T) | Failed(error: ResolveError) | Diverged

  /** The prefix that marks a reference into the same document. */
  const Internal := "#/"

  /**
   * `RefOr::get_item`: an inline item is returned as is; an internal
   * reference is looked up with `lookup`; any other reference is external.
   */
  function GetItem<T>(r: RefOr<T>, lookup: string -> Lookup<T>): (res: Resolved<T>)
    ensures r.Item? ==> res == Resolved(r.item)
    ensures r.Ref? && !StartsWith(r.reference, Internal) ==> res == Failed(ExternalUnsupported(r.reference))
    ensures r.Ref? && StartsWith(r.reference, Internal) ==>
      (res.Resolved? <==> lookup(r.reference).Found?)
      && (res.Resolved? ==> res.item == lookup(r.reference).item)
      && (lookup(r.reference).Missing? <==> res == Failed(NotFound(r.reference)))
  {
    match r
    case Item(d) => Resolved(d)
    case Ref(s) =>
      if StartsWith(s, Internal) then
        match lookup(s)
        case Found(d) => Resolved(d)
        case Missing => Failed(NotFound(s))
        case Diverges => Diverged
      else Failed(ExternalUnsupported(s))
  }

  /**
   * `resolve_in_map`: strip every leading copy of `prefix`, look the name up,
   * and resolve the stored entry in turn; any failure on the way is `Missing`.
   */
  function ResolveInMap<T>(m: Entries<RefOr<T>>, prefix: string, reference: string, fuel: nat): (r: Lookup<T>)
    ensures Get(m, TrimStartMatches(reference, prefix)).None? ==> r == Missing
    ensures Get(m, TrimStartMatches(reference, prefix)).Some? && Get(m, TrimStartMatches(reference, prefix)).value.Item? ==>
      r == Found(Get(m, TrimStartMatches(reference, prefix)).value.item)
    ensures r.Found? ==> exists k :: Get(m, k) == Some(Item(r.item))
    decreases fuel
  {
    var key := TrimStartMatches(reference, prefix);
    match Get<RefOr<T>>(m, key)
    case None => Missing
    case Some(Item(d)) => Found(d)
    case Some(Ref(next)) =>
      if !StartsWith(next, Internal) then Missing
      else if fuel == 0 then Diverges
      else ResolveInMap(m, prefix, next, fuel - 1)
  }

  /** More fuel never changes an answer that did not run out: `Found`/`Missing` are the source's answers. */
  lemma {:induction false} ResolveFuelMonotone<T>(m: Entries<RefOr<T>>, prefix: string, reference: string, f: nat, g: nat)
    requires f <= g
    requires !ResolveInMap(m, prefix, reference, f).Diverges?
    ensures ResolveInMap(m, prefix, reference, g) == ResolveInMap(m, prefix, reference, f)
    decreases f
  {
    var key := TrimStartMatches(reference, prefix);
    match Get<RefOr<T>>(m, key)
    case None =>
    case Some(Item(d)) =>
    case Some(Ref(next)) =>
      if StartsWith(next, Internal) && f > 0 {
        ResolveFuelMonotone(m, prefix, next, f - 1, g - 1);
      }
  }

  /**
   * The references stored in `m` are ranked by `rank`: every stored key
   * ranks below `|m|`, and an entry that refers on within the document
   * names a key of lower rank. Such a map holds no cycle.
   */
  ghost predicate Ranked<T>(m: Entries<RefOr<T>>, prefix: string, rank: string -> nat)
  {
    forall k :: Get(m, k).Some? ==>
      rank(k) < |m|
      && (Get(m, k).value.Ref? && StartsWith(Get(m, k).value.reference, Internal) ==>
            rank(TrimStartMatches(Get(m, k).value.reference, prefix)) < rank(k))
  }

  /** In a ranked map, fuel at least the rank of the looked-up key always suffices. */
  lemma {:induction false} RankedResolves<T>(m: Entries<RefOr<T>>, prefix: string, rank: string -> nat, reference: string, fuel: nat)
    requires Ranked(m, prefix, rank)
    requires rank(TrimStartMatches(reference, prefix)) <= fuel
    ensures !ResolveInMap(m, prefix, reference, fuel).Diverges?
    decreases fuel
  {
    var key := TrimStartMatches(reference, prefix);
    match Get<RefOr<T>>(m, key)
    case None =>
    case Some(Item(d)) =>
    case Some(Ref(next)) =>
      if StartsWith(next, Internal) {
        RankedResolves(m, prefix, rank, next, fuel - 1);
      }
  }

  /** Hence the lookup with fuel `|m|` that validation uses never loops on a map without cycles. */
  lemma AcyclicNeverDiverges<T>(m: Entries<RefOr<T>>, prefix: string, rank: string -> nat, reference: string)
    requires Ranked(m, prefix, rank)
    ensures !ResolveInMap(m, prefix, reference, |m|).Diverges?
  {
    if Get(m, TrimStartMatches(reference, prefix)).Some? {
      RankedResolves(m, prefix, rank, reference, |m|);
    }
  }

  /** There is no cycle guard: two entries referring to each other never resolve, whatever the fuel. */
  lemma {:induction false} TwoCycleDiverges<T>(m: Entries<RefOr<T>>, prefix: string, a: string, b: string, fuel: nat)
    requires StartsWith(prefix, Internal)
    requires !StartsWith(a, prefix) && !StartsWith(b, prefix)
    requires Get(m, a) == Some(Ref(prefix + b)) && Get(m, b) == Some(Ref(prefix + a))
    ensures ResolveInMap(m, prefix, prefix + a, fuel) == Diverges
    decreases fuel
  {
    TrimOnce(prefix, a);
    TrimOnce(prefix, b);
    assert TrimStartMatches(a, prefix) == a && TrimStartMatches(b, prefix) == b;
    assert StartsWith(prefix + b, Internal) by { PrefixOfPrefix(prefix, b); }
    assert StartsWith(prefix + a, Internal) by { PrefixOfPrefix(prefix, a); }
    if fuel > 1 {
      TwoCycleDiverges(m, prefix, a, b, fuel - 2);
    }
  }

  lemma PrefixOfPrefix(prefix: string, s: string)
    requires StartsWith(prefix, Internal)
    ensures StartsWith(prefix + s, Internal)
  {
    assert (prefix + s)[..|Internal|] == prefix[..|Internal|];
  }

  /** What a lookup that remembers the names on its chain yields. */
  datatype Guarded<T> = Hit(item: T) | Absent | Cycle(name: string)

  /**
   * The evidently intended `resolve_in_map`: the names met on the chain are
   * remembered, and meeting one again is reported as a cycle instead of
   * being followed forever. It needs no fuel.
   */
  function ResolveGuarded<T>(m: Entries<RefOr<T>>, prefix: string, reference: string, seen: set<string>): (r: Guarded<T>)
    ensures TrimStartMatches(reference, prefix) in seen ==> r == Cycle(TrimStartMatches(reference, prefix))
    ensures r.Hit? ==> exists k :: k !in seen && Get(m, k) == Some(Item(r.item))
    ensures r.Cycle? ==> r.name in seen || r.name in Keys(m)
    decreases |Keys(m) - seen|
  {
    var key := TrimStartMatches(reference, prefix);
    if key in seen then Cycle(key)
    else
      match Get<RefOr<T>>(m, key)
      case None => Absent
      case Some(Item(d)) => Hit(d)
      case Some(Ref(next)) =>
        if !StartsWith(next, Internal) then Absent
        else
          assert |Keys(m) - (seen + {key})| < |Keys(m) - seen| by { SeenShrinks(Keys(m), seen, key); }
          ResolveGuarded(m, prefix, next, seen + {key})
  }

  /** One more name seen leaves one fewer unseen. */
  lemma SeenShrinks(keys: set<string>, seen: set<string>, key: string)
    requires key in keys && key !in seen
    ensures |keys - (seen + {key})| == |keys - seen| - 1
  {
    assert keys - seen == (keys - (seen + {key})) + {key};
  }

  /**
   * Wherever the guarded lookup finds an item or finds nothing, the source's
   * lookup gives the same answer, with fuel the number of names not yet seen.
   */
  lemma {:induction false} GuardedAgrees<T>(m: Entries<RefOr<T>>, prefix: string, reference: string, seen: set<string>)
    ensures ResolveGuarded(m, prefix, reference, seen).Hit? ==>
      ResolveInMap(m, prefix, reference, |Keys(m) - seen|) == Found(ResolveGuarded(m, prefix, reference, seen).item)
    ensures ResolveGuarded(m, prefix, reference, seen).Absent? ==>
      ResolveInMap(m, prefix, reference, |Keys(m) - seen|) == Missing
    decreases |Keys(m) - seen|
  {
    var key := TrimStartMatches(reference, prefix);
    if key !in seen {
      match Get<RefOr<T>>(m, key)
      case None =>
      case Some(Item(d)) =>
      case Some(Ref(next)) =>
        if StartsWith(next, Internal) {
          SeenShrinks(Keys(m), seen, key);
          GuardedAgrees(m, prefix, next, seen + {key});
          var f := |Keys(m) - (seen + {key})|;
          if !ResolveInMap(m, prefix, next, f).Diverges? {
            ResolveFuelMonotone(m, prefix, next, f, |Keys(m) - seen| - 1);
          }
        }
    }
  }

  /** On a map without cycles the guarded lookup never reports one, as long as the names seen rank above. */
  lemma {:induction false} GuardedRankedNoCycle<T>(m: Entries<RefOr<T>>, prefix: string, rank: string -> nat, reference: string, seen: set<string>)
    requires Ranked(m, prefix, rank)
    requires forall s :: s in seen ==> rank(TrimStartMatches(reference, prefix)) < rank(s)
    ensures !ResolveGuarded(m, prefix, reference, seen).Cycle?
    decreases rank(TrimStartMatches(reference, prefix))
  {
    var key := TrimStartMatches(reference, prefix);
    assert key !in seen;
    match Get<RefOr<T>>(m, key)
    case None =>
    case Some(Item(d)) =>
    case Some(Ref(next)) =>
      if StartsWith(next, Internal) {
        GuardedRankedNoCycle(m, prefix, rank, next, seen + {key});
      }
  }

  /** The two entries that send the source's lookup round forever are reported as a cycle. */
  lemma GuardedTwoCycle<T>(m: Entries<RefOr<T>>, prefix: string, a: string, b: string)
    requires StartsWith(prefix, Internal)
    requires !StartsWith(a, prefix) && !StartsWith(b, prefix) && a != b
    requires Get(m, a) == Some(Ref(prefix + b)) && Get(m, b) == Some(Ref(prefix + a))
    ensures ResolveGuarded(m, prefix, prefix + a, {}) == Cycle(a)
  {
    TrimOnce(prefix, a);
    TrimOnce(prefix, b);
    assert TrimStartMatches(a, prefix) == a && TrimStartMatches(b, prefix) == b;
    assert StartsWith(prefix + b, Internal) by { PrefixOfPrefix(prefix, b); }
    assert StartsWith(prefix + a, Internal) by { PrefixOfPrefix(prefix, a); }
    assert ResolveGuarded(m, prefix, prefix + a, {}) == ResolveGuarded(m, prefix, prefix + b, {a});
    assert ResolveGuarded(m, prefix, prefix + b, {a}) == ResolveGuarded(m, prefix, prefix + a, {a, b});
  }

  /** A reference written with the prefix repeated resolves like the plain one. */
  lemma RepeatedPrefixResolves<T>(m: Entries<RefOr<T>>, prefix: string, name: string, n: nat, fuel: nat)
    requires |prefix| > 0
    ensures ResolveInMap(m, prefix, Repeat(prefix, n) + name, fuel) == ResolveInMap(m, prefix, name, fuel)
  {
    TrimRepeatedPrefix(prefix, name, n);
  }

  /** Hence `get_item` of such a reference yields the stored item, however often the prefix is repeated. */
  lemma RepeatedPrefixGetItem<T>(m: Entries<RefOr<T>>, prefix: string, name: string, n: nat, item: T)
    requires StartsWith(prefix, Internal) && !StartsWith(name, prefix)
    requires Get(m, name) == Some(Item(item))
    ensures GetItem(Ref(Repeat(prefix, n + 1) + name), (s: string) => ResolveInMap(m, prefix, s, |m|)) == Resolved(item)
  {
    RepeatedIsInternal(prefix, name, n);
    RepeatedPrefixFound(m, prefix, name, n, item);
  }

  lemma RepeatedIsInternal(prefix: string, name: string, n: nat)
    requires StartsWith(prefix, Internal)
    ensures StartsWith(Repeat(prefix, n + 1) + name, Internal)
  {
    assert Repeat(prefix, n + 1) + name == prefix + (Repeat(prefix, n) + name);
    PrefixOfPrefix(prefix, Repeat(prefix, n) + name);
  }

  lemma RepeatedPrefixFound<T>(m: Entries<RefOr<T>>, prefix: string, name: string, n: nat, item: T)
    requires StartsWith(prefix, Internal) && !StartsWith(name, prefix)
    requires Get(m, name) == Some(Item(item))
    ensures ResolveInMap(m, prefix, Repeat(prefix, n + 1) + name, |m|) == Found(item)
  {
    RepeatedPrefixResolves(m, prefix, name, n + 1, |m|);
    assert TrimStartMatches(name, prefix) == name;
  }

  /** After `Ref::validate_with_context` and the visit: either validate the target at the reference, or stop. */
  datatype Step<T> = Descend(target: T, ctx: Context) | Stop(ctx: Context)

  /**
   * The `Ref` arm of `RefOr::validate_with_context`: report an empty `$ref`;
   * then, on the first visit of the reference only, descend into the resolved
   * target (its path is the reference string) or report why it did not resolve.
   * A lookup that loops is where the source never returns: the context is cut.
   */
  function FollowRef<T>(c: Context, path: string, reference: string, resolved: Resolved<T>): (r: Step<T>)
    ensures Extends(c, r.ctx) && r.ctx.visited == c.visited + {reference}
    ensures r.Descend? <==> reference !in c.visited && resolved.Resolved?
    ensures r.Descend? ==> r.target == resolved.item
    ensures reference == "" ==> |r.ctx.errors| > |c.errors| && r.ctx.errors[|c.errors|] == path + ".$ref: must not be empty"
    ensures r.ctx.cut <==> c.cut || (reference !in c.visited && resolved.Diverged?)
    ensures reference != "" && (reference in c.visited || resolved.Resolved?) ==> r.ctx == c.(visited := r.ctx.visited)
    ensures reference != "" && reference !in c.visited && resolved.Diverged? ==> r.ctx == c.(visited := r.ctx.visited, cut := true)
    ensures reference != "" && reference !in c.visited && resolved.Failed? && resolved.error.NotFound? ==>
      r.ctx.errors == c.errors + [path + (".$ref: `" + resolved.error.reference + "` not found")]
    ensures reference != "" && reference !in c.visited && resolved.Failed? && resolved.error.ExternalUnsupported? ==>
      r.ctx.errors == c.errors + (if IsOption(c, IgnoreExternalReferences) then []
                                  else [path + (".$ref: " + ResolveErrorText(resolved.error))])
  {
    var c1 := if reference == "" then PushError(c, path, ".$ref: must not be empty") else c;
    var (isNew, c2) := Visit(c1, reference);
    if !isNew then Stop(c2)
    else match resolved
      case Resolved(d) => Descend(d, c2)
      case Diverged => Stop(Cut(c2))
      case Failed(NotFound(s)) => Stop(PushError(c2, path, ".$ref: `" + s + "` not found"))
      case Failed(ExternalUnsupported(s)) =>
        if IsOption(c2, IgnoreExternalReferences) then Stop(c2)
        else Stop(PushError(c2, path, ".$ref: " + ResolveErrorText(resolved.error)))
  }

  /** A second reference to an already visited target reports nothing new beyond an empty `$ref`. */
  lemma RevisitIsSilent<T>(c: Context, path: string, reference: string, resolved: Resolved<T>)
    ensures reference in c.visited && reference != "" ==> FollowRef(c, path, reference, resolved) == Stop(c)
  {
    if reference in c.visited {
      assert c.visited + {reference} == c.visited;
    }
  }
}
