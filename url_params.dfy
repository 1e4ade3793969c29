/**
 * The part of the WHATWG `URLSearchParams` object that the pages use: an
 * ordered list of name/value pairs changed in place by `set` and read by `get`.
 */
module UrlParams {
  import opened Text

  type Entry = (string, string)

  /** The pairs after `set(name, value)`: the first pair with that name takes the value, later ones go; with none, the pair is appended. */
  function SetEntries(entries: seq<Entry>, name: string, value: string): (r: seq<Entry>)
    decreases |entries|
  {
    if entries == [] then [(name, value)]
    else if entries[0].0 == name then [(name, value)] + RemoveName(entries[1..], name)
    else [entries[0]] + SetEntries(entries[1..], name, value)
  }

  /** The pairs whose name differs from `name`, in their order. */
  function RemoveName(entries: seq<Entry>, name: string): (r: seq<Entry>)
    ensures |r| <= |entries|
    ensures forall i | 0 <= i < |r| :: r[i].0 != name
    ensures forall e | e in entries && e.0 != name :: e in r
    ensures forall e | e in r :: e in entries
  {
    if entries == [] then []
    else if entries[0].0 == name then RemoveName(entries[1..], name)
    else [entries[0]] + RemoveName(entries[1..], name)
  }

  /** `get(name)`: the value of the first pair with that name. */
  function GetEntry(entries: seq<Entry>, name: string): Option<string> {
    if entries == [] then None
    else if entries[0].0 == name then Some(entries[0].1)
    else GetEntry(entries[1..], name)
  }

  /** `get` finds a value iff some pair has the name, and the value it finds is that of the first such pair. */
  lemma {:induction false} GetEntrySpec(entries: seq<Entry>, name: string)
    ensures GetEntry(entries, name).None? <==> forall i | 0 <= i < |entries| :: entries[i].0 != name
    ensures GetEntry(entries, name).Some? ==>
      exists i | 0 <= i < |entries| :: entries[i] == (name, GetEntry(entries, name).value) && forall j | 0 <= j < i :: entries[j].0 != name
  {
    if entries != [] {
      GetEntrySpec(entries[1..], name);
      if entries[0].0 != name && GetEntry(entries, name).Some? {
        var i :| 0 <= i < |entries[1..]| && entries[1..][i] == (name, GetEntry(entries, name).value) && forall j | 0 <= j < i :: entries[1..][j].0 != name;
        assert entries[i + 1] == (name, GetEntry(entries, name).value);
        assert forall j | 0 <= j < i + 1 :: entries[j].0 != name by {
          forall j | 0 <= j < i + 1 ensures entries[j].0 != name {
            if j > 0 { assert entries[j] == entries[1..][j - 1]; }
          }
        }
      }
    }
  }

  lemma GetEntrySingle(n: string, v: string, name: string)
    ensures GetEntry([(n, v)], name) == if n == name then Some(v) else None
  {
    assert [(n, v)][1..] == [];
  }

  /** `get` on a concatenation looks in the first part, then in the second. */
  lemma {:induction false} GetEntryAppend(a: seq<Entry>, b: seq<Entry>, name: string)
    ensures GetEntry(a + b, name) == if GetEntry(a, name).Some? then GetEntry(a, name) else GetEntry(b, name)
  {
    if a != [] {
      assert (a + b)[0] == a[0];
      assert (a + b)[1..] == a[1..] + b;
      GetEntryAppend(a[1..], b, name);
    } else {
      assert a + b == b;
    }
  }

  function CountName(entries: seq<Entry>, name: string): (n: nat)
    ensures n <= |entries|
  {
    if entries == [] then 0
    else (if entries[0].0 == name then 1 else 0) + CountName(entries[1..], name)
  }

  /** After `set`, `get` of that name yields the new value and exactly one pair has that name. */
  lemma {:induction false} SetThenGet(entries: seq<Entry>, name: string, value: string)
    ensures GetEntry(SetEntries(entries, name, value), name) == Some(value)
    ensures CountName(SetEntries(entries, name, value), name) == 1
  {
    if entries == [] {
    } else if entries[0].0 == name {
      RemoveNameCount(entries[1..], name);
    } else {
      SetThenGet(entries[1..], name, value);
    }
  }

  lemma {:induction false} RemoveNameCount(entries: seq<Entry>, name: string)
    ensures CountName(RemoveName(entries, name), name) == 0
  {
    if entries != [] {
      RemoveNameCount(entries[1..], name);
    }
  }

  lemma {:induction false} RemoveNameGet(entries: seq<Entry>, name: string, other: string)
    requires other != name
    ensures GetEntry(RemoveName(entries, name), other) == GetEntry(entries, other)
  {
    if entries != [] {
      RemoveNameGet(entries[1..], name, other);
    }
  }

  /** `set` leaves `get` of every other name unchanged. */
  lemma {:induction false} SetKeepsOthers(entries: seq<Entry>, name: string, value: string, other: string)
    requires other != name
    ensures GetEntry(SetEntries(entries, name, value), other) == GetEntry(entries, other)
  {
    if entries == [] {
    } else if entries[0].0 == name {
      RemoveNameGet(entries[1..], name, other);
    } else {
      SetKeepsOthers(entries[1..], name, value, other);
    }
  }

  /** On a list without the name, `set` appends one pair at the end. */
  lemma {:induction false} SetAppends(entries: seq<Entry>, name: string, value: string)
    requires forall i | 0 <= i < |entries| :: entries[i].0 != name
    ensures SetEntries(entries, name, value) == entries + [(name, value)]
  {
    if entries != [] {
      SetAppends(entries[1..], name, value);
      assert entries == [entries[0]] + entries[1..];
    }
  }

  /** Setting the same pair twice is the same as setting it once. */
  lemma {:induction false} SetIdempotent(entries: seq<Entry>, name: string, value: string)
    ensures SetEntries(SetEntries(entries, name, value), name, value) == SetEntries(entries, name, value)
  {
    if entries == [] {
    } else if entries[0].0 == name {
      RemoveNameIdempotent(entries[1..], name);
    } else {
      SetIdempotent(entries[1..], name, value);
    }
  }

  lemma {:induction false} RemoveNameIdempotent(entries: seq<Entry>, name: string)
    ensures RemoveName(RemoveName(entries, name), name) == RemoveName(entries, name)
  {
    if entries != [] {
      RemoveNameIdempotent(entries[1..], name);
    }
  }

  /** A `URLSearchParams` object. */
  class SearchParams {
    var entries: seq<Entry>

    constructor ()
      ensures entries == []
    {
      entries := [];
    }

    /** `params.set(name, value)` */
    method Set(name: string, value: string)
      modifies this
      ensures entries == SetEntries(old(entries), name, value)
    {
      entries := SetEntries(entries, name, value);
    }

    /** `params.get(name)` */
    function Get(name: string): Option<string>
      reads this
    {
      GetEntry(entries, name)
    }
  }
}
