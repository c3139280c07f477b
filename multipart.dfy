/** The multipart form body exchanged between the registration form and the
    endpoint: an ordered list of (key, part) entries, as the browser's
    `FormData` keeps them. */
module Multipart {

  datatype Option<T> = None | Some(value: T)

  /** An uploaded file: its name and its MIME type as the browser reports it. */
  datatype File = File(name: string, mime: string)

  /** One value of a multipart body: a string or a file. */
  datatype Part = Str(s: string) | Blob(file: File)

  type Entry = (string, Part)

  /** The browser's `FormData`: `append` adds an entry at the end and keeps
      the entries already there, including ones with the same key. */
  class FormData {
    var entries: seq<Entry>

    constructor ()
      ensures entries == []
    {
      entries := [];
    }

    method Append(key: string, part: Part)
      modifies this
      ensures entries == old(entries) + [(key, part)]
    {
      entries := entries + [(key, part)];
    }
  }

  /** `formData.getAll(key)`: every part under `key`, in order. */
  function GetAll(entries: seq<Entry>, key: string): (parts: seq<Part>)
    ensures |parts| <= |entries|
  {
    if entries == [] then []
    else (if entries[0].0 == key then [entries[0].1] else []) + GetAll(entries[1..], key)
  }

  /** `formData.get(key)`: the first part under `key`, if any. */
  function Get(entries: seq<Entry>, key: string): Option<Part> {
    if entries == [] then None
    else if entries[0].0 == key then Some(entries[0].1)
    else Get(entries[1..], key)
  }

  /** `Object.fromEntries(formData.entries())[key]`: the LAST part under
      `key`, since later entries overwrite earlier ones. */
  function Last(entries: seq<Entry>, key: string): Option<Part> {
    if entries == [] then None
    else if entries[|entries| - 1].0 == key then Some(entries[|entries| - 1].1)
    else Last(entries[..|entries| - 1], key)
  }

  /** `get` finds the first entry under `key`. */
  lemma {:induction false} GetIsFirst(entries: seq<Entry>, key: string)
    ensures Get(entries, key).None? <==> forall i :: 0 <= i < |entries| ==> entries[i].0 != key
    ensures Get(entries, key).Some? ==>
      exists i :: 0 <= i < |entries| && entries[i] == (key, Get(entries, key).value)
                  && forall j :: 0 <= j < i ==> entries[j].0 != key
  {
    if entries != [] && entries[0].0 != key {
      var t := entries[1..];
      GetIsFirst(t, key);
      assert forall i :: 0 < i < |entries| ==> entries[i] == t[i - 1];
      if Get(t, key).Some? {
        var i :| 0 <= i < |t| && t[i] == (key, Get(t, key).value) && forall j :: 0 <= j < i ==> t[j].0 != key;
        assert entries[i + 1] == t[i];
      }
    }
  }

  /** The last-wins lookup finds the last entry under `key`. */
  lemma {:induction false} LastIsLast(entries: seq<Entry>, key: string)
    ensures Last(entries, key).None? <==> forall i :: 0 <= i < |entries| ==> entries[i].0 != key
    ensures Last(entries, key).Some? ==>
      exists i :: 0 <= i < |entries| && entries[i] == (key, Last(entries, key).value)
                  && forall j :: i < j < |entries| ==> entries[j].0 != key
  {
    if entries != [] && entries[|entries| - 1].0 != key {
      var t := entries[..|entries| - 1];
      LastIsLast(t, key);
      assert forall i :: 0 <= i < |t| ==> entries[i] == t[i];
    }
  }

  /** `getAll` returns exactly the parts of the entries under `key`. */
  lemma {:induction false} GetAllMembers(entries: seq<Entry>, key: string)
    ensures forall p :: p in GetAll(entries, key) <==> (key, p) in entries
  {
    if entries != [] {
      GetAllMembers(entries[1..], key);
      assert entries == [entries[0]] + entries[1..];
    }
  }

  /** When `key` occurs once, `get` and the last-wins lookup agree. */
  lemma GetLastAgree(entries: seq<Entry>, key: string, p: Part)
    requires GetAll(entries, key) == [p]
    ensures Get(entries, key) == Some(p) && Last(entries, key) == Some(p)
  {
    GetAllMembers(entries, key);
    GetIsFirst(entries, key);
    LastIsLast(entries, key);
    GetAllIndex(entries, key);
    assert (key, p) in entries;
  }

  /** Each entry under `key` contributes its part to `getAll`, so two of
      them make `getAll` return two parts or more. */
  lemma {:induction false} GetAllIndex(entries: seq<Entry>, key: string)
    ensures forall i, j :: 0 <= i < j < |entries| && entries[i].0 == key && entries[j].0 == key ==>
      |GetAll(entries, key)| >= 2
  {
    if entries != [] {
      var t := entries[1..];
      GetAllIndex(t, key);
      GetAllMembers(t, key);
      assert forall i :: 0 < i < |entries| ==> entries[i] == t[i - 1];
      forall i, j | 0 <= i < j < |entries| && entries[i].0 == key && entries[j].0 == key
        ensures |GetAll(entries, key)| >= 2
      {
        assert (key, entries[j].1) in t;
        if i > 0 { assert (key, entries[i].1) in t; }
      }
    }
  }
}
