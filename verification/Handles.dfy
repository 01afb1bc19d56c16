/**
 * The permanent product handle: `"dog-" + entryId`, taken verbatim (no
 * lower-casing) from the submission's `Id` field and from nothing else.
 */
module Handles {
  import opened Wrappers
  import opened JsValues
  import opened Mapper

  const Prefix := "dog-"

  /** `` `dog-${entryId}` `` */
  function DeriveHandle(entryId: Value): (handle: string)
    ensures EntryText(handle) == Some(Show(entryId))
  {
    Prefix + Show(entryId)
  }

  /** The entry id text a handle carries: the inverse of `DeriveHandle`. */
  function EntryText(handle: string): (t: Option<string>)
    ensures t.Some? <==> Prefix <= handle
  {
    if Prefix <= handle then Some(handle[|Prefix|..]) else None
  }

  /** Every handle starts with "dog-", and stripping that prefix gives back the id's text exactly. */
  lemma HandleRoundTrip(entryId: Value)
    ensures Prefix <= DeriveHandle(entryId)
    ensures EntryText(DeriveHandle(entryId)) == Some(Show(entryId))
  {
  }

  /** Two string ids, or two numeric ids, share a handle only if they are equal. */
  lemma HandleInjective(a: Value, b: Value)
    requires (a.Str? && b.Str?) || (a.Num? && b.Num?)
    requires DeriveHandle(a) == DeriveHandle(b)
    ensures a == b
  {
    HandleRoundTrip(a);
    HandleRoundTrip(b);
    ShowInjective(a, b);
  }

  /**
   * The handle of a submission depends on its `Id` field only: changing or
   * adding any other field (the dog's name, say) leaves it as it was.
   */
  lemma HandleIgnoresOtherFields(raw: RawRecord, key: string, v: Value)
    requires key != IdKey
    requires IdKey in raw
    ensures MapDog(raw[key := v]).entryId == MapDog(raw).entryId
    ensures DeriveHandle(MapDog(raw[key := v]).entryId.value) == DeriveHandle(MapDog(raw).entryId.value)
  {
  }
}
