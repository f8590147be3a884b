/**
 * ObjectIdentifierMap (oids.go): a caller-owned map from arbitrary string keys
 * to object identifiers, with lookup by any form Equal accepts or by key.
 */
module Registry {
  import opened Wrappers
  import opened Text
  import opened Oid

  /**
   * What Get reports: the entry found, no entry, or the nil-pointer panic that
   * happens when the scan reaches an entry holding nil (`v.Equal` dereferences it).
   */
  datatype Lookup = Hit(key: string, oid: ObjectIdentifier) | Miss | NilDeref(key: string)

  /** An entry matches when its value Equals the term or, for a string term, its key equals the term up to case. */
  predicate EntryMatches(key: string, v: ObjectIdentifier, term: Term)
    reads v
  {
    Matches(v.nANF, v.aka, v.ints, term) || (term.StringTerm? && EqualFold(key, term.s))
  }

  class ObjectIdentifierMap {
    /** A nil *ObjectIdentifier is `null`. */
    var entries: map<string, ObjectIdentifier?>

    /** `make(ObjectIdentifierMap)`. */
    constructor ()
      ensures entries == map[]
    {
      entries := map[];
    }

    /** Set: store `x` (possibly nil) at `key`; every other key keeps its entry. */
    method Set(key: string, x: ObjectIdentifier?)
      modifies this
      ensures entries == old(entries)[key := x]
      ensures key in entries && entries[key] == x
      ensures forall k :: k in old(entries) && k != key ==> k in entries && entries[k] == old(entries)[k]
    {
      entries := entries[key := x];
    }

    /**
     * New: parse `raw` and store the result at `key`; on a parse error the map
     * is left as it was and the error is returned.
     */
    method New(key: string, raw: string) returns (err: Option<OidError>)
      modifies this
      ensures err.Some? <==> Parse(raw).Err?
      ensures err.Some? ==> err == Some(Parse(raw).error) && entries == old(entries)
      ensures err.None? ==>
        key in entries && entries[key] != null && fresh(entries[key]) &&
        entries[key].nANF == Parse(raw).value.nanf && entries[key].ints == Parse(raw).value.ints &&
        entries[key].aka == [] &&
        ValidArcs(entries[key].nANF, entries[key].ints) &&
        entries == old(entries)[key := entries[key]]
    {
      var x;
      x, err := NewObjectIdentifier(raw);
      if err.Some? {
        return;
      }
      ParseSuccess(raw);
      entries := entries[key := x];
    }

    /**
     * Get: scan the entries in an unspecified order and return the first that
     * matches. A hit is a non-nil entry that matches; a miss means no entry
     * matched and none was nil.
     */
    method Get(term: Term) returns (r: Lookup)
      ensures r.Hit? ==> r.key in entries && entries[r.key] == r.oid && EntryMatches(r.key, r.oid, term)
      ensures r.NilDeref? ==> r.key in entries && entries[r.key] == null
      ensures r.Miss? ==> forall k :: k in entries ==> entries[k] != null && !EntryMatches(k, entries[k], term)
    {
      var keys := entries.Keys;
      while keys != {}
        invariant keys <= entries.Keys
        invariant forall k :: k in entries && k !in keys ==> entries[k] != null && !EntryMatches(k, entries[k], term)
        decreases keys
      {
        var k :| k in keys;
        var v := entries[k];
        if v == null {
          return NilDeref(k);
        }
        var eq := v.Equal(term);
        if eq {
          return Hit(k, v);
        }
        if term.StringTerm? && EqualFold(k, term.s) {
          return Hit(k, v);
        }
        keys := keys - {k};
      }
      return Miss;
    }

    /** Exists: whether Get finds an entry; `None` when the scan panics on a nil entry. */
    method Exists(term: Term) returns (r: Option<bool>)
      ensures r == Some(true) ==> exists k :: k in entries && entries[k] != null && EntryMatches(k, entries[k], term)
      ensures r == Some(false) ==> forall k :: k in entries ==> entries[k] != null && !EntryMatches(k, entries[k], term)
      ensures r.None? ==> exists k :: k in entries && entries[k] == null
    {
      var found := Get(term);
      r := if found.NilDeref? then None else Some(found.Hit?);
    }
  }
}
