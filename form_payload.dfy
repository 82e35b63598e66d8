/** A browser `FormData` body as the admin forms build it: an ordered list
    of (key, value) entries, where a value is text or an uploaded file. */
module FormPayload {

  import opened Wrappers

  /** A file the user picked; only its identity matters here. */
  datatype FileRef = FileRef(name: string)

  datatype Value = Text(text: string) | Blob(file: FileRef)

  datatype Entry = Entry(key: string, value: Value)

  /** The keys in append order. */
  function Keys(entries: seq<Entry>): (r: seq<string>)
    ensures |r| == |entries|
    ensures forall k :: 0 <= k < |entries| ==> r[k] == entries[k].key
  {
    seq(|entries|, k requires 0 <= k < |entries| => entries[k].key)
  }

  /** `formData.getAll(key)`: every value stored under `key`, in order. */
  function GetAll(entries: seq<Entry>, key: string): seq<Value>
    decreases |entries|
  {
    if entries == [] then []
    else (if entries[0].key == key then [entries[0].value] else []) + GetAll(entries[1..], key)
  }

  /** `formData.get(key)`: the first value stored under `key`. */
  function Get(entries: seq<Entry>, key: string): Option<Value> {
    var all := GetAll(entries, key);
    if all == [] then None else Some(all[0])
  }

  lemma {:induction false} GetAllConcat(a: seq<Entry>, b: seq<Entry>, key: string)
    ensures GetAll(a + b, key) == GetAll(a, key) + GetAll(b, key)
    decreases |a|
  {
    if a == [] {
      assert a + b == b;
    } else {
      GetAllConcat(a[1..], b, key);
      assert (a + b)[0] == a[0];
      assert (a + b)[1..] == a[1..] + b;
    }
  }

  /** A key absent from the entries has no values. */
  lemma {:induction false} GetAllAbsent(entries: seq<Entry>, key: string)
    requires key !in Keys(entries)
    ensures GetAll(entries, key) == []
    decreases |entries|
  {
    if entries != [] {
      assert Keys(entries[1..]) == Keys(entries)[1..];
      GetAllAbsent(entries[1..], key);
    }
  }

  /** One entry per text, all under the same key: a `forEach` of
      `formData.append(key, x)`. */
  function TextEntries(key: string, xs: seq<string>): (r: seq<Entry>)
    ensures |r| == |xs|
    ensures forall k :: 0 <= k < |xs| ==> r[k] == Entry(key, Text(xs[k]))
  {
    seq(|xs|, k requires 0 <= k < |xs| => Entry(key, Text(xs[k])))
  }

  /** One entry per file, all under the same key. */
  function FileEntries(key: string, fs: seq<FileRef>): (r: seq<Entry>)
    ensures |r| == |fs|
    ensures forall k :: 0 <= k < |fs| ==> r[k] == Entry(key, Blob(fs[k]))
  {
    seq(|fs|, k requires 0 <= k < |fs| => Entry(key, Blob(fs[k])))
  }

  /** Appending one more text under the key extends the run by one entry. */
  lemma TextEntriesSnoc(key: string, xs: seq<string>, i: nat)
    requires i < |xs|
    ensures TextEntries(key, xs[..i + 1]) == TextEntries(key, xs[..i]) + [Entry(key, Text(xs[i]))]
  {
  }

  lemma FileEntriesSnoc(key: string, fs: seq<FileRef>, i: nat)
    requires i < |fs|
    ensures FileEntries(key, fs[..i + 1]) == FileEntries(key, fs[..i]) + [Entry(key, Blob(fs[i]))]
  {
  }

  /** Reading a single entry. */
  lemma GetAllOne(e: Entry, key: string)
    ensures GetAll([e], key) == if e.key == key then [e.value] else []
  {
  }

  function Texts(xs: seq<string>): (r: seq<Value>)
    ensures |r| == |xs|
    ensures forall k :: 0 <= k < |xs| ==> r[k] == Text(xs[k])
  {
    seq(|xs|, k requires 0 <= k < |xs| => Text(xs[k]))
  }

  function Blobs(fs: seq<FileRef>): (r: seq<Value>)
    ensures |r| == |fs|
    ensures forall k :: 0 <= k < |fs| ==> r[k] == Blob(fs[k])
  {
    seq(|fs|, k requires 0 <= k < |fs| => Blob(fs[k]))
  }

  /** Reading back a run of entries under one key gives the texts in
      order; any other key sees none of them. */
  lemma {:induction false} GetAllTextEntries(key: string, xs: seq<string>, other: string)
    ensures GetAll(TextEntries(key, xs), key) == Texts(xs)
    ensures other != key ==> GetAll(TextEntries(key, xs), other) == []
    decreases |xs|
  {
    if xs != [] {
      GetAllTextEntries(key, xs[1..], other);
      assert TextEntries(key, xs)[1..] == TextEntries(key, xs[1..]);
    }
  }

  lemma {:induction false} GetAllFileEntries(key: string, fs: seq<FileRef>, other: string)
    ensures GetAll(FileEntries(key, fs), key) == Blobs(fs)
    ensures other != key ==> GetAll(FileEntries(key, fs), other) == []
    decreases |fs|
  {
    if fs != [] {
      GetAllFileEntries(key, fs[1..], other);
      assert FileEntries(key, fs)[1..] == FileEntries(key, fs[1..]);
    }
  }
}
