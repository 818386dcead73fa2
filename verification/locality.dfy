/**
 * Where a validator reports: every error it adds is written at the path it
 * was given (or a path below it), or at an internal reference string, the
 * path a referenced target is validated at. Composite validators inherit
 * the property from their parts through the lemmas here.
 */
module Locality {
  import opened Strings
  import opened Helpers
  import Reference

  predicate Localized(c: Context, d: Context, path: string)
  {
    |c.errors| <= |d.errors|
    && forall i :: |c.errors| <= i < |d.errors| ==>
         StartsWith(d.errors[i], path) || StartsWith(d.errors[i], Reference.Internal)
  }

  lemma Unchanged(c: Context, d: Context, path: string)
    requires c.errors == d.errors
    ensures Localized(c, d, path)
  {
  }

  lemma Chain(a: Context, b: Context, c: Context, path: string)
    requires Extends(a, b) && Extends(b, c)
    requires Localized(a, b, path) && Localized(b, c, path)
    ensures Localized(a, c, path)
  {
    forall i | |a.errors| <= i < |b.errors|
      ensures c.errors[i] == b.errors[i]
    {
    }
  }

  /** Errors reported below `path + suffix` are reported below `path`. */
  lemma Narrow(a: Context, b: Context, path: string, suffix: string)
    requires Localized(a, b, path + suffix)
    ensures Localized(a, b, path)
  {
    forall i | |a.errors| <= i < |b.errors| && StartsWith(b.errors[i], path + suffix)
      ensures StartsWith(b.errors[i], path)
    {
      StartsWithShorter(b.errors[i], path, suffix);
    }
  }

  /** A step that reports at `path` followed by one that reports below `path + suffix`. */
  lemma ThenBelow(a: Context, b: Context, c: Context, path: string, suffix: string)
    requires Extends(a, b) && Extends(b, c)
    requires Localized(a, b, path) && Localized(b, c, path + suffix)
    ensures Localized(a, c, path)
  {
    Narrow(b, c, path, suffix);
    Chain(a, b, c, path);
  }

  /** Two steps that both report below `path + suffix`. */
  lemma BothBelow(a: Context, b: Context, c: Context, path: string, suffix: string)
    requires Extends(a, b) && Extends(b, c)
    requires Localized(a, b, path + suffix) && Localized(b, c, path + suffix)
    ensures Localized(a, c, path)
  {
    Chain(a, b, c, path + suffix);
    Narrow(a, c, path, suffix);
  }

  /** A run from no errors that reports below `#` leaves only errors below `#`. */
  lemma RootedErrors(c: Context, d: Context)
    requires c.errors == [] && Localized(c, d, "#")
    ensures forall i :: 0 <= i < |d.errors| ==> StartsWith(d.errors[i], "#")
  {
    forall i | 0 <= i < |d.errors| && StartsWith(d.errors[i], Reference.Internal)
      ensures StartsWith(d.errors[i], "#")
    {
      assert Reference.Internal == "#" + "/";
      StartsWithConcat("#", "/");
      StartsWithChain(d.errors[i], Reference.Internal, "#");
    }
  }

  /** Errors reported at an internal reference count as reported anywhere. */
  lemma AtReference(a: Context, b: Context, reference: string, path: string)
    requires Localized(a, b, reference) && StartsWith(reference, Reference.Internal)
    ensures Localized(a, b, path)
  {
    forall i | |a.errors| <= i < |b.errors| && StartsWith(b.errors[i], reference)
      ensures StartsWith(b.errors[i], Reference.Internal)
    {
      StartsWithChain(b.errors[i], reference, Reference.Internal);
    }
  }

  /** Appending messages that all start with `path`. */
  lemma Appended(c: Context, d: Context, added: seq<string>, path: string)
    requires d.errors == c.errors + added
    requires forall i :: 0 <= i < |added| ==> StartsWith(added[i], path)
    ensures Localized(c, d, path)
  {
    forall i | |c.errors| <= i < |d.errors|
      ensures StartsWith(d.errors[i], path)
    {
      assert d.errors[i] == added[i - |c.errors|];
    }
  }

  lemma MessageAt(path: string, msg: string)
    ensures StartsWith(Message(path, msg), path)
  {
    if |msg| > 0 && msg[0] == '.' {
      StartsWithConcat(path, msg);
    } else {
      assert Message(path, msg) == path + (": " + msg);
      StartsWithConcat(path, ": " + msg);
    }
  }

  lemma Pushed(c: Context, path: string, msg: string)
    ensures Localized(c, PushError(c, path, msg), path)
  {
    MessageAt(path, msg);
    Appended(c, PushError(c, path, msg), [Message(path, msg)], path);
  }

  /** Following a reference reports only at the referring path. */
  lemma FollowRefLocalized<T>(c: Context, path: string, reference: string, resolved: Reference.Resolved<T>)
    ensures Localized(c, Reference.FollowRef(c, path, reference, resolved).ctx, path)
  {
    var c1 := if reference == "" then PushError(c, path, ".$ref: must not be empty") else c;
    if reference == "" { Pushed(c, path, ".$ref: must not be empty"); } else { Unchanged(c, c1, path); }
    var c2 := Visit(c1, reference).1;
    var r := Reference.FollowRef(c, path, reference, resolved).ctx;
    if r.errors == c2.errors {
      Unchanged(c1, r, path);
    } else {
      assert resolved.Failed?;
      var msg := if resolved.error.NotFound? then ".$ref: `" + resolved.error.reference + "` not found"
                 else ".$ref: " + Reference.ResolveErrorText(resolved.error);
      assert r == PushError(c2, path, msg);
      Pushed(c2, path, msg);
    }
    Chain(c, c1, r, path);
  }
}
