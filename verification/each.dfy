/**
 * The loops most objects run over their maps and lists: each entry is
 * validated in order at `path.field[name]` (or `path.field[i]` for a list),
 * with the context threaded from one entry to the next.
 */
module Each {
  import opened Strings
  import opened Helpers
  import opened Locality
  import opened RefValidation

  function EntryPath(path: string, field: string, name: string): string
  {
    path + ("." + field + "[" + name + "]")
  }

  function IndexPath(path: string, field: string, i: nat): string
  {
    EntryPath(path, field, NatToString(i))
  }

  /** The entries from the `i`-th on, in key order. */
  function EachEntry<T(!new)>(entries: seq<(string, T)>, i: nat, c: Context, path: string, field: string,
                              validate: (T, Context, string) -> Context): (r: Context)
    requires i <= |entries| && WellBehaved(validate)
    ensures Extends(c, r) && Localized(c, r, path)
    ensures i < |entries| ==>
      r == EachEntry(entries, i + 1, validate(entries[i].1, c, EntryPath(path, field, entries[i].0)), path, field, validate)
    decreases |entries| - i
  {
    if i == |entries| then c
    else
      var c1 := validate(entries[i].1, c, EntryPath(path, field, entries[i].0));
      Narrow(c, c1, path, "." + field + "[" + entries[i].0 + "]");
      var r := EachEntry(entries, i + 1, c1, path, field, validate);
      Chain(c, c1, r, path);
      r
  }

  /** The items from the `i`-th on, in list order. */
  function EachItem<T(!new)>(items: seq<T>, i: nat, c: Context, path: string, field: string,
                             validate: (T, Context, string) -> Context): (r: Context)
    requires i <= |items| && WellBehaved(validate)
    ensures Extends(c, r) && Localized(c, r, path)
    ensures i < |items| ==>
      r == EachItem(items, i + 1, validate(items[i], c, IndexPath(path, field, i)), path, field, validate)
    decreases |items| - i
  {
    if i == |items| then c
    else
      var c1 := validate(items[i], c, IndexPath(path, field, i));
      Narrow(c, c1, path, "." + field + "[" + NatToString(i) + "]");
      var r := EachItem(items, i + 1, c1, path, field, validate);
      Chain(c, c1, r, path);
      r
  }

  /** A validator that never reports leaves every loop over it silent. */
  lemma {:induction false} SilentEntries<T(!new)>(entries: seq<(string, T)>, i: nat, c: Context, path: string, field: string,
                                                  validate: (T, Context, string) -> Context)
    requires i <= |entries| && WellBehaved(validate)
    requires forall t, c0, p :: validate(t, c0, p).errors == c0.errors
    ensures EachEntry(entries, i, c, path, field, validate).errors == c.errors
    decreases |entries| - i
  {
    if i < |entries| {
      var c1 := validate(entries[i].1, c, EntryPath(path, field, entries[i].0));
      assert c1.errors == c.errors;
      SilentEntries(entries, i + 1, c1, path, field, validate);
    }
  }

  /** What validating one entry reports, the whole loop reports. */
  lemma {:induction false} EntryErrorsKept<T(!new)>(entries: seq<(string, T)>, i: nat, c: Context, path: string, field: string,
                                                    validate: (T, Context, string) -> Context, m: string)
    requires i < |entries| && WellBehaved(validate)
    requires m in Added(c, validate(entries[i].1, c, EntryPath(path, field, entries[i].0)))
    ensures m in Added(c, EachEntry(entries, i, c, path, field, validate))
  {
    var c1 := validate(entries[i].1, c, EntryPath(path, field, entries[i].0));
    AddedEarlier(c, c1, EachEntry(entries, i + 1, c1, path, field, validate), m);
  }

  /** The context after the first `k` entries, ready for entry `k`. */
  ghost function EntriesBefore<T(!new)>(entries: seq<(string, T)>, k: nat, c: Context, path: string, field: string,
                                        validate: (T, Context, string) -> Context): (r: Context)
    requires k <= |entries| && WellBehaved(validate)
    ensures Extends(c, r)
    decreases k
  {
    if k == 0 then c
    else
      var b := EntriesBefore(entries, k - 1, c, path, field, validate);
      var r := validate(entries[k - 1].1, b, EntryPath(path, field, entries[k - 1].0));
      ExtendsTransitive(c, b, r);
      r
  }

  /** The loop over all entries is the loop from entry `k` on, started where the first `k` left off. */
  lemma {:induction false} EachEntrySplit<T(!new)>(entries: seq<(string, T)>, k: nat, c: Context, path: string, field: string,
                                                   validate: (T, Context, string) -> Context)
    requires k <= |entries| && WellBehaved(validate)
    ensures EachEntry(entries, 0, c, path, field, validate)
         == EachEntry(entries, k, EntriesBefore(entries, k, c, path, field, validate), path, field, validate)
    decreases k
  {
    if k > 0 {
      EachEntrySplit(entries, k - 1, c, path, field, validate);
    }
  }

  /** Whatever entry `k` reports in its turn, the loop over all entries reports. */
  lemma EntryReportKept<T(!new)>(entries: seq<(string, T)>, k: nat, c: Context, path: string, field: string,
                                 validate: (T, Context, string) -> Context, m: string)
    requires k < |entries| && WellBehaved(validate)
    requires m in Added(EntriesBefore(entries, k, c, path, field, validate),
                        validate(entries[k].1, EntriesBefore(entries, k, c, path, field, validate), EntryPath(path, field, entries[k].0)))
    ensures m in Added(c, EachEntry(entries, 0, c, path, field, validate))
  {
    var b := EntriesBefore(entries, k, c, path, field, validate);
    EachEntrySplit(entries, k, c, path, field, validate);
    EntryErrorsKept(entries, k, b, path, field, validate, m);
    AddedLater(c, b, EachEntry(entries, k, b, path, field, validate), m);
  }

  /** Whatever entry `k` marks visited in its turn stays visited after the loop. */
  lemma EntryVisitKept<T(!new)>(entries: seq<(string, T)>, k: nat, c: Context, path: string, field: string,
                                validate: (T, Context, string) -> Context, v: string)
    requires k < |entries| && WellBehaved(validate)
    requires v in validate(entries[k].1, EntriesBefore(entries, k, c, path, field, validate), EntryPath(path, field, entries[k].0)).visited
    ensures v in EachEntry(entries, 0, c, path, field, validate).visited
  {
    EachEntrySplit(entries, k, c, path, field, validate);
  }
}
