/**
 * The "unused" passes that close a document's validation: each named
 * object is looked up in `visited` under its own key; one nobody visited is
 * reported (unless the kind's flag is set) and then validated at that key.
 * Because validating one object can visit others, the outcome depends on
 * the order of the passes and of the entries.
 */
module Unused {
  import opened Strings
  import opened Validation
  import opened Helpers
  import opened Locality
  import opened Reference
  import opened RefValidation

  function UnusedMessage(key: string): string
  {
    key + ": unused"
  }

  /** `validate_not_visited` reports only at its key. */
  lemma NotVisitedLocalized<D(!new)>(obj: D, c: Context, flag: Options, key: string,
                                     validate: (D, Context, string) -> Context)
    requires WellBehaved(validate)
    ensures Localized(c, ValidateNotVisited(obj, c, flag, key, validate), key)
  {
    var (isNew, c1) := Visit(c, key);
    if isNew {
      var c2 := if !IsOption(c1, flag) then PushError(c1, key, "unused") else c1;
      if !IsOption(c1, flag) { Pushed(c1, key, "unused"); } else { Unchanged(c1, c2, key); }
      Unchanged(c, c1, key);
      Chain(c, c1, c2, key);
      Chain(c, c2, validate(obj, c2, key), key);
    } else {
      Unchanged(c, c1, key);
    }
  }

  /** The entries from the `i`-th on, each under `prefix + name`. */
  function UnusedPass<D(!new)>(entries: seq<(string, D)>, i: nat, prefix: string, flag: Options, c: Context,
                               validate: (D, Context, string) -> Context): (r: Context)
    requires i <= |entries| && StartsWith(prefix, Internal)
    requires WellBehaved(validate)
    ensures Extends(c, r) && Localized(c, r, Internal)
    ensures forall k :: i <= k < |entries| ==> prefix + entries[k].0 in r.visited
    decreases |entries| - i
  {
    if i == |entries| then c
    else
      var key := prefix + entries[i].0;
      var c1 := ValidateNotVisited(entries[i].1, c, flag, key, validate);
      NotVisitedLocalized(entries[i].1, c, flag, key, validate);
      PrefixOfPrefix(prefix, entries[i].0);
      StartsWithChain(key, prefix, Internal);
      AtReference(c, c1, key, Internal);
      var r := UnusedPass(entries, i + 1, prefix, flag, c1, validate);
      Chain(c, c1, r, Internal);
      r
  }

  /** A validator that leaves `visited` alone, such as the Tag Object's. */
  ghost predicate Visitless<D(!new)>(validate: (D, Context, string) -> Context)
  {
    forall t, c, p :: validate(t, c, p).visited == c.visited
  }

  /**
   * With a validator that visits nothing, every entry whose key nobody
   * visited before the pass, and that no earlier entry shares, is reported
   * unused while the rule is on.
   */
  lemma {:induction false} UnvisitedReported<D(!new)>(entries: seq<(string, D)>, i: nat, prefix: string, flag: Options,
                                                      c: Context, validate: (D, Context, string) -> Context, k: nat)
    requires i <= k < |entries| && StartsWith(prefix, Internal)
    requires WellBehaved(validate) && Visitless(validate)
    requires RuleActive(c.options, flag)
    requires prefix + entries[k].0 !in c.visited
    requires forall j :: i <= j < k ==> entries[j].0 != entries[k].0
    ensures UnusedMessage(prefix + entries[k].0) in Added(c, UnusedPass(entries, i, prefix, flag, c, validate))
    decreases |entries| - i
  {
    var key := prefix + entries[i].0;
    var c1 := ValidateNotVisited(entries[i].1, c, flag, key, validate);
    var r := UnusedPass(entries, i + 1, prefix, flag, c1, validate);
    if k == i {
      var c2 := PushError(c.(visited := c.visited + {key}), key, "unused");
      assert c1 == validate(entries[i].1, c2, key);
      assert c2.errors[|c.errors|] == UnusedMessage(key);
      AddedFirst(c, c2, r, UnusedMessage(key));
    } else {
      assert c1.visited == c.visited + {key};
      assert prefix + entries[k].0 != key by {
        assert (prefix + entries[k].0)[|prefix|..] == entries[k].0;
        assert key[|prefix|..] == entries[i].0;
      }
      UnvisitedReported(entries, i + 1, prefix, flag, c1, validate, k);
      AddedLater(c, c1, r, UnusedMessage(prefix + entries[k].0));
    }
  }

  /** An entry whose key is already visited is skipped: neither reported nor validated. */
  lemma VisitedSkipped<D(!new)>(entries: seq<(string, D)>, i: nat, prefix: string, flag: Options, c: Context,
                                validate: (D, Context, string) -> Context)
    requires i < |entries| && StartsWith(prefix, Internal) && WellBehaved(validate)
    requires prefix + entries[i].0 in c.visited
    ensures UnusedPass(entries, i, prefix, flag, c, validate) == UnusedPass(entries, i + 1, prefix, flag, c, validate)
  {
  }
}
