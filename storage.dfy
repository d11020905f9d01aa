/**
 * `write_to_file`: the stored list of records is read back, the incoming
 * records are numbered on from the last stored record (unless nothing was
 * stored, which is taken for a seeding run whose records carry their own
 * indices), and the stored list followed by the incoming records is
 * written out again.
 */
module Storage {
  import opened Options
  import opened Records

  /** What the data file holds when `write_to_file` starts. */
  datatype StoredFile =
    | Absent                        // no such file
    | Unreadable                    // opening or parsing it fails
    | Blank                         // empty, or whitespace only
    | Stored(records: seq<Record>)  // a list of records

  /** `existing_data` once the file has been read: the stored list, or
      empty when there is none or it cannot be read. */
  function Existing(f: StoredFile): seq<Record> {
    if f.Stored? then f.records else []
  }

  /** The first new index: one past the last stored record's index, or 1
      when that index is `None`. */
  function StartIndex(existing: seq<Record>): int
    requires existing != []
  {
    match existing[|existing| - 1].index
    case None => 1
    case Some(i) => i + 1
  }

  /** `rs` numbered from `start` on, every other field untouched. */
  function Renumbered(rs: seq<Record>, start: int): (r: seq<Record>)
    ensures |r| == |rs|
  {
    seq(|rs|, k requires 0 <= k < |rs| => rs[k].(index := Some(start + k)))
  }

  /** The incoming records as `write_to_file` leaves them. */
  function Incoming(f: StoredFile, rs: seq<Record>): seq<Record> {
    var existing := Existing(f);
    if existing == [] then rs else Renumbered(rs, StartIndex(existing))
  }

  /** The list `write_to_file` writes. */
  function Merge(f: StoredFile, rs: seq<Record>): seq<Record> {
    Existing(f) + Incoming(f, rs)
  }

  /** The data file. */
  class Store {
    var file: StoredFile

    constructor (f: StoredFile)
      ensures file == f
    {
      file := f;
    }
  }

  /** The `enumerate` loop: each incoming record, in place, gets the index
      `start` plus its position. */
  method AssignIndices(result: array<Record>, start: int)
    modifies result
    ensures result[..] == Renumbered(old(result[..]), start)
  {
    for i := 0 to result.Length
      invariant forall k :: 0 <= k < i ==> result[k] == old(result[k]).(index := Some(start + k))
      invariant forall k :: i <= k < result.Length ==> result[k] == old(result[k])
    {
      result[i] := result[i].(index := Some(start + i));
    }
  }

  /** `write_to_file(result)`. The incoming records are changed in place;
      when the file cannot be written it keeps what it held. */
  method WriteToFile(store: Store, result: array<Record>, canWrite: bool)
    modifies store, result
    ensures result[..] == Incoming(old(store.file), old(result[..]))
    ensures store.file == if canWrite then Stored(Merge(old(store.file), old(result[..]))) else old(store.file)
  {
    var existing := Existing(store.file);
    if existing != [] {
      var last := existing[|existing| - 1].index;
      if last.Some? {
        AssignIndices(result, last.value + 1);
      } else {
        AssignIndices(result, 1);
      }
    }
    if canWrite {
      store.file := Stored(existing + result[..]);
    }
  }

  // ---------------------------------------------------------------------
  // What the merge promises
  // ---------------------------------------------------------------------

  /** The stored records stay first and unchanged, the incoming ones follow
      in their order, and of an incoming record only the index can change. */
  lemma MergeAppends(f: StoredFile, rs: seq<Record>)
    ensures var m := Merge(f, rs); var n := |Existing(f)|;
      && |m| == n + |rs|
      && m[..n] == Existing(f)
      && forall k :: 0 <= k < |rs| ==> m[n + k].(index := rs[k].index) == rs[k]
  {
    var m := Merge(f, rs);
    var n := |Existing(f)|;
    assert m[..n] == Existing(f);
    forall k | 0 <= k < |rs|
      ensures m[n + k].(index := rs[k].index) == rs[k]
    {
      assert m[n + k] == Incoming(f, rs)[k];
    }
  }

  /** The new indices count on from the last stored record's index, or
      from 1 when it is `None`; with nothing stored (no file, a blank or
      unreadable one, or an empty list) the incoming records are written
      as they came. */
  lemma MergeIndices(f: StoredFile, rs: seq<Record>)
    ensures Existing(f) == [] ==> Merge(f, rs) == rs
    ensures var e := Existing(f); var m := Merge(f, rs);
      e != [] && e[|e| - 1].index.None? ==>
        forall k :: |e| <= k < |m| ==> m[k].index == Some(1 + (k - |e|))
    ensures var e := Existing(f); var m := Merge(f, rs);
      e != [] && e[|e| - 1].index.Some? ==>
        forall k :: |e| <= k < |m| ==> m[k].index == Some(e[|e| - 1].index.value + 1 + (k - |e|))
  {
    var e := Existing(f);
    var m := Merge(f, rs);
    if e == [] {
      assert m == rs;
    } else {
      var start := StartIndex(e);
      forall k | |e| <= k < |m|
        ensures m[k].index == Some(start + (k - |e|))
      {
        assert m[k] == Renumbered(rs, start)[k - |e|];
      }
    }
  }

  /** Every record has an index, and the indices strictly increase. */
  predicate Increasing(rs: seq<Record>) {
    && (forall k :: 0 <= k < |rs| ==> rs[k].index.Some?)
    && (forall i, j :: 0 <= i < j < |rs| ==> rs[i].index.value < rs[j].index.value)
  }

  /** A stored list with increasing indices stays increasing, whatever the
      incoming records carried, so new indices never repeat stored ones. */
  lemma MergeKeepsIncreasing(f: StoredFile, rs: seq<Record>)
    requires Existing(f) != [] && Increasing(Existing(f))
    ensures Increasing(Merge(f, rs))
  {
    var e := Existing(f);
    var n := |e|;
    var m := Merge(f, rs);
    var last := e[n - 1].index.value;
    assert forall k :: 0 <= k < n ==> m[k] == e[k];
    assert forall k :: n <= k < |m| ==> m[k].index == Some(last + 1 + (k - n)) by {
      forall k | n <= k < |m|
        ensures m[k].index == Some(last + 1 + (k - n))
      {
        assert m[k] == Incoming(f, rs)[k - n];
      }
    }
    forall i, j | 0 <= i < j < |m|
      ensures m[i].index.value < m[j].index.value
    {
      if j < n {
        assert m[i] == e[i] && m[j] == e[j];
      } else if i < n {
        assert m[i] == e[i];
        if i < n - 1 {
          assert e[i].index.value < e[n - 1].index.value;
        }
      }
    }
  }
}
