/**
 * `RefOr::validate_with_context` for targets whose validation does not lead
 * back to a reference of the same kind: an inline item is validated in
 * place; a reference is followed once per reference string and its target
 * validated at that string. The recursive schema kinds spell the same steps
 * out inside their own mutually recursive groups.
 */
module RefValidation {
  import opened Helpers
  import opened Locality
  import opened Strings
  import opened Reference

  /** A validator that only appends, at or below the path it is given. */
  ghost predicate WellBehaved<T(!new)>(validate: (T, Context, string) -> Context)
  {
    forall t, c, p :: Extends(c, validate(t, c, p)) && Localized(c, validate(t, c, p), p)
  }

  /** `lookup` is the document's `ResolveReference` for the kind. */
  function ValidateRefOr<T(!new)>(x: RefOr<T>, lookup: string -> Lookup<T>, c: Context, path: string,
                                  validate: (T, Context, string) -> Context): (r: Context)
    requires WellBehaved(validate)
    ensures Extends(c, r) && Localized(c, r, path)
    ensures x.Item? ==> r == validate(x.item, c, path)
    ensures x.Ref? ==> x.reference in r.visited
    ensures x.Ref? && x.reference != "" && x.reference in c.visited ==> r == c
    ensures x.Ref? && x.reference !in c.visited && GetItem(x, lookup).Resolved? ==>
      r == validate(GetItem(x, lookup).item, c.(visited := c.visited + {x.reference}), x.reference)
    ensures x.Ref? && x.reference != "" && x.reference !in c.visited && !GetItem(x, lookup).Resolved? ==>
      r == FollowRef(c, path, x.reference, GetItem(x, lookup)).ctx
  {
    match x
    case Item(t) => validate(t, c, path)
    case Ref(reference) =>
      var resolved := GetItem(x, lookup);
      var step := FollowRef(c, path, reference, resolved);
      FollowRefLocalized(c, path, reference, resolved);
      RevisitIsSilent(c, path, reference, resolved);
      if step.Descend? then
        var r := validate(step.target, step.ctx, reference);
        AtReference(step.ctx, r, reference, path);
        Chain(c, step.ctx, r, path);
        r
      else step.ctx
  }
}
