/**
 * The browser objects the admin code works through, as ordered lists of
 * name/value entries: `FormData` (appended to in place by the form
 * handlers) and `URLSearchParams` (copied and updated with `set` by the
 * paging and sorting controls).
 */
module Web {
  import opened Wrappers

  type Entries = seq<(string, string)>

  predicate HasName(entries: Entries, name: string) {
    exists i :: 0 <= i < |entries| && entries[i].0 == name
  }

  /** `get(name)`: the value of the FIRST entry with that name, or `null`. */
  function Lookup(entries: Entries, name: string): (r: Option<string>)
    ensures r.None? <==> !HasName(entries, name)
    ensures r.Some? ==> (name, r.value) in entries
  {
    if entries == [] then None
    else if entries[0].0 == name then Some(entries[0].1)
    else
      var r := Lookup(entries[1..], name);
      assert HasName(entries, name) ==> HasName(entries[1..], name) by {
        if HasName(entries, name) {
          var i :| 0 <= i < |entries| && entries[i].0 == name;
          assert entries[1..][i - 1].0 == name;
        }
      }
      r
  }

  /** The entries whose name is not `name`, in order. */
  function Without(entries: Entries, name: string): (r: Entries)
    ensures !HasName(r, name)
    ensures |r| <= |entries|
  {
    if entries == [] then []
    else if entries[0].0 == name then Without(entries[1..], name)
    else [entries[0]] + Without(entries[1..], name)
  }

  /** The first entry named `name` gets `value`; later ones are dropped.
      Only defined when such an entry exists. */
  function ReplaceFirst(entries: Entries, name: string, value: string): Entries
    requires HasName(entries, name)
  {
    if entries[0].0 == name then [(name, value)] + Without(entries[1..], name)
    else
      assert HasName(entries[1..], name) by {
        var i :| 0 <= i < |entries| && entries[i].0 == name;
        assert entries[1..][i - 1].0 == name;
      }
      [entries[0]] + ReplaceFirst(entries[1..], name, value)
  }

  /** `URLSearchParams.set(name, value)`: the first entry with that name
      takes the value and the others with that name go; with no such
      entry, one is appended. */
  function SetParam(entries: Entries, name: string, value: string): (r: Entries)
    ensures Lookup(r, name) == Some(value)
    ensures Without(r, name) == Without(entries, name)
    ensures |r| == |Without(r, name)| + 1
  {
    if HasName(entries, name) then
      ReplaceFirstFacts(entries, name, value);
      ReplaceFirst(entries, name, value)
    else
      LookupAppend(entries, name, value, name);
      WithoutAppend(entries, name, value);
      WithoutAbsent(entries, name);
      entries + [(name, value)]
  }

  /** Appending is visible to `get` only when the name was absent before. */
  lemma {:induction false} LookupAppend(entries: Entries, name: string, value: string, key: string)
    ensures Lookup(entries + [(name, value)], key)
         == if Lookup(entries, key).Some? then Lookup(entries, key)
            else if name == key then Some(value) else None
  {
    if entries != [] {
      assert (entries + [(name, value)])[1..] == entries[1..] + [(name, value)];
      LookupAppend(entries[1..], name, value, key);
    }
  }

  /** Removing entries of one name does not change `get` of another. */
  lemma {:induction false} LookupWithout(entries: Entries, name: string, key: string)
    requires key != name
    ensures Lookup(Without(entries, name), key) == Lookup(entries, key)
  {
    if entries != [] {
      LookupWithout(entries[1..], name, key);
    }
  }

  lemma {:induction false} WithoutTwice(entries: Entries, name: string)
    ensures Without(Without(entries, name), name) == Without(entries, name)
  {
    if entries != [] {
      WithoutTwice(entries[1..], name);
    }
  }

  lemma {:induction false} ReplaceFirstFacts(entries: Entries, name: string, value: string)
    requires HasName(entries, name)
    ensures Lookup(ReplaceFirst(entries, name, value), name) == Some(value)
    ensures Without(ReplaceFirst(entries, name, value), name) == Without(entries, name)
    ensures |ReplaceFirst(entries, name, value)| == |Without(ReplaceFirst(entries, name, value), name)| + 1
  {
    if entries[0].0 == name {
      WithoutTwice(entries[1..], name);
    } else {
      assert HasName(entries[1..], name) by {
        var i :| 0 <= i < |entries| && entries[i].0 == name;
        assert entries[1..][i - 1].0 == name;
      }
      ReplaceFirstFacts(entries[1..], name, value);
    }
  }

  /** Without an entry of that name, there is nothing to remove. */
  lemma {:induction false} WithoutAbsent(entries: Entries, name: string)
    requires !HasName(entries, name)
    ensures Without(entries, name) == entries
  {
    if entries != [] {
      WithoutAbsent(entries[1..], name);
    }
  }

  lemma {:induction false} WithoutAppend(entries: Entries, name: string, value: string)
    ensures Without(entries + [(name, value)], name) == Without(entries, name)
  {
    if entries != [] {
      assert (entries + [(name, value)])[1..] == entries[1..] + [(name, value)];
      WithoutAppend(entries[1..], name, value);
    }
  }

  /** After `set`, `get` of that name gives the value, exactly one entry
      has that name, and every entry of every other name is still there,
      in the same order. */
  lemma SetParamSpec(entries: Entries, name: string, value: string)
    ensures Lookup(SetParam(entries, name, value), name) == Some(value)
    ensures Without(SetParam(entries, name, value), name) == Without(entries, name)
    ensures forall key :: key != name ==> Lookup(SetParam(entries, name, value), key) == Lookup(entries, key)
    ensures |SetParam(entries, name, value)| == |Without(entries, name)| + 1
  {
    var r := SetParam(entries, name, value);
    forall key | key != name
      ensures Lookup(r, key) == Lookup(entries, key)
    {
      LookupWithout(r, name, key);
      LookupWithout(entries, name, key);
    }
  }

  /** A `FormData` object: entries that handlers append to in place. */
  class FormData {
    var entries: Entries

    constructor (fields: Entries)
      ensures entries == fields
    {
      entries := fields;
    }

    /** `formData.get(name)`. */
    function Get(name: string): Option<string>
      reads this
    {
      Lookup(entries, name)
    }

    /** `formData.append(name, value)`: a new last entry; `get` sees it
        only if no entry of that name was there before. */
    method Append(name: string, value: string)
      modifies this
      ensures entries == old(entries) + [(name, value)]
      ensures Get(name) == if old(Get(name)).Some? then old(Get(name)) else Some(value)
    {
      LookupAppend(entries, name, value, name);
      entries := entries + [(name, value)];
    }
  }
}
