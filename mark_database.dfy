/**
  The mark store: latency marks keyed by video identifier, and their mapping
  to and from the JSON object tree that is written to (and read back from)
  the database file. Only the value tree is modelled; turning it into JSON
  text and the file itself are outside the model.
 */
module MarkStore {
  import opened Wrappers

  /** A JSON value as produced and consumed by the platform's JSON serializer.
      Numbers are kept as exact values: they are only stored and compared. */
  datatype Json =
    | JNull
    | JBool(b: bool)
    | JNumber(n: real)
    | JString(s: string)
    | JArray(items: seq<Json>)
    | JObject(fields: map<string, Json>)

  /** A named latency measurement: the input and output times, in seconds. */
  datatype Mark = Mark(name: string, input: real, output: real)

  const NameKey: string := "name"
  const InputKey: string := "input"
  const OutputKey: string := "output"
  const MarksKey: string := "marks"

  /** `Mark.encode`: an object with exactly the three fields of the mark,
      which decodes to the mark again. */
  function Encode(m: Mark): (r: Json)
    ensures r.JObject? && r.fields.Keys == {NameKey, InputKey, OutputKey}
    ensures Decode(r) == Some(m)
  {
    JObject(map[NameKey := JString(m.name), InputKey := JNumber(m.input), OutputKey := JNumber(m.output)])
  }

  /** The field `key` of `fields` when it is present and a string. */
  function StringField(fields: map<string, Json>, key: string): Option<string>
  {
    if key in fields && fields[key].JString? then Some(fields[key].s) else None
  }

  /** The field `key` of `fields` when it is present and a number. */
  function NumberField(fields: map<string, Json>, key: string): Option<real>
  {
    if key in fields && fields[key].JNumber? then Some(fields[key].n) else None
  }

  /** `Mark.decode`: a mark when the record is an object whose `name` is a
      string and whose `input` and `output` are numbers; nothing otherwise.
      Other fields of the record are not looked at. */
  function Decode(record: Json): (r: Option<Mark>)
  {
    if !record.JObject? then None
    else
      var name := StringField(record.fields, NameKey);
      var input := NumberField(record.fields, InputKey);
      var output := NumberField(record.fields, OutputKey);
      if name.Some? && input.Some? && output.Some? then
        Some(Mark(name.value, input.value, output.value))
      else
        None
  }

  /** A record that `Decode` accepts. */
  predicate WellFormed(record: Json)
  {
    && record.JObject?
    && NameKey in record.fields && record.fields[NameKey].JString?
    && InputKey in record.fields && record.fields[InputKey].JNumber?
    && OutputKey in record.fields && record.fields[OutputKey].JNumber?
  }

  /** Decoding succeeds exactly on well-formed records, and then reads the
      three fields. */
  lemma DecodeSucceedsIffWellFormed(record: Json)
    ensures Decode(record).Some? <==> WellFormed(record)
    ensures WellFormed(record) ==> Decode(record) == Some(Mark(
      record.fields[NameKey].s, record.fields[InputKey].n, record.fields[OutputKey].n))
  {
  }

  /** A record that is not an object, or that lacks one of the three fields
      or has it with the wrong kind of value, does not decode. */
  lemma DecodeRejects(record: Json)
    ensures !record.JObject? ==> Decode(record) == None
    ensures record.JObject? && NameKey !in record.fields ==> Decode(record) == None
    ensures record.JObject? && InputKey !in record.fields ==> Decode(record) == None
    ensures record.JObject? && OutputKey !in record.fields ==> Decode(record) == None
    ensures record.JObject? && NameKey in record.fields && !record.fields[NameKey].JString? ==> Decode(record) == None
    ensures record.JObject? && InputKey in record.fields && !record.fields[InputKey].JNumber? ==> Decode(record) == None
    ensures record.JObject? && OutputKey in record.fields && !record.fields[OutputKey].JNumber? ==> Decode(record) == None
  {
  }

  /** Fields other than `name`, `input` and `output` do not affect decoding. */
  lemma DecodeIgnoresOtherKeys(fields: map<string, Json>, extra: map<string, Json>)
    requires NameKey !in extra && InputKey !in extra && OutputKey !in extra
    ensures Decode(JObject(fields + extra)) == Decode(JObject(fields))
  {
    var all := fields + extra;
    assert StringField(all, NameKey) == StringField(fields, NameKey);
    assert NumberField(all, InputKey) == NumberField(fields, InputKey);
    assert NumberField(all, OutputKey) == NumberField(fields, OutputKey);
  }

  /** The `marks` object of the saved tree: every mark, encoded, under its
      key. Decoding its entries gives back every mark. */
  function EncodeAll(marks: map<string, Mark>): (r: map<string, Json>)
    ensures r.Keys == marks.Keys
    ensures DecodeAll(r) == marks
  {
    var r := map url | url in marks :: Encode(marks[url]);
    assert DecodeAll(r).Keys == marks.Keys;
    r
  }

  /** The tree that `save` serializes: `{"marks": {...}}`. Loading it gives
      back exactly the saved marks. */
  function SaveTree(marks: map<string, Mark>): (root: Json)
    ensures root.JObject? && root.fields.Keys == {MarksKey}
    ensures LoadTree(Some(root)) == marks
  {
    JObject(map[MarksKey := JObject(EncodeAll(marks))])
  }

  /** The entries of a `marks` object that decode, decoded; the others are
      dropped. An entry is kept exactly when it is well formed, and a kept
      entry holds the record's three fields. */
  function DecodeAll(entries: map<string, Json>): (r: map<string, Mark>)
    ensures r.Keys <= entries.Keys
    ensures forall key :: key in entries ==> (key in r <==> WellFormed(entries[key]))
    ensures forall key :: key in r ==>
              && key in entries && WellFormed(entries[key])
              && r[key] == Mark(entries[key].fields[NameKey].s, entries[key].fields[InputKey].n,
                             entries[key].fields[OutputKey].n)
  {
    map key | key in entries && Decode(entries[key]).Some? :: Decode(entries[key]).value
  }

  /** What `load` yields for the tree it read: nothing when there is no tree
      (no file, or text that is not JSON), when the root is not an object or
      when `marks` is missing or not an object; otherwise the decodable entries. */
  function LoadTree(stored: Option<Json>): (r: map<string, Mark>)
  {
    if stored.None? || !stored.value.JObject? then map[]
    else if MarksKey !in stored.value.fields || !stored.value.fields[MarksKey].JObject? then map[]
    else DecodeAll(stored.value.fields[MarksKey].fields)
  }

  /** `load` gives an empty map unless the root is an object holding a
      `marks` object. */
  lemma LoadTreeEmptyCases(stored: Option<Json>)
    ensures stored.None? ==> LoadTree(stored) == map[]
    ensures stored.Some? && !stored.value.JObject? ==> LoadTree(stored) == map[]
    ensures stored.Some? && stored.value.JObject? && MarksKey !in stored.value.fields ==> LoadTree(stored) == map[]
    ensures (stored.Some? && stored.value.JObject? && MarksKey in stored.value.fields
             && !stored.value.fields[MarksKey].JObject?) ==> LoadTree(stored) == map[]
  {
  }

  /** Loading keeps every well-formed entry, decoded, and drops every
      malformed one; other keys of the root are ignored. */
  lemma LoadTreeFilters(root: map<string, Json>, entries: map<string, Json>, key: string)
    requires MarksKey in root && root[MarksKey] == JObject(entries)
    requires key in entries
    ensures WellFormed(entries[key]) ==>
              key in LoadTree(Some(JObject(root))) && Some(LoadTree(Some(JObject(root)))[key]) == Decode(entries[key])
    ensures !WellFormed(entries[key]) ==> key !in LoadTree(Some(JObject(root)))
  {
    DecodeSucceedsIffWellFormed(entries[key]);
  }

  /** `load`'s decoding loop over the `marks` object. */
  method DecodeEntries(entries: map<string, Json>) returns (result: map<string, Mark>)
    ensures result == DecodeAll(entries)
  {
    result := map[];
    var pending := entries.Keys;
    while pending != {}
      invariant pending <= entries.Keys
      invariant result.Keys == set key | key in entries.Keys - pending && Decode(entries[key]).Some?
      invariant forall key :: key in result ==> Some(result[key]) == Decode(entries[key])
      decreases pending
    {
      var key :| key in pending;
      var mark := Decode(entries[key]);
      if mark.Some? {
        result := result[key := mark.value];
      }
      pending := pending - {key};
    }
  }

  /** `MarkDatabase.load`: the marks read from the tree found in the file,
      or none when there is no usable tree. */
  method Load(stored: Option<Json>) returns (result: map<string, Mark>)
    ensures result == LoadTree(stored)
  {
    if stored.None? {
      return map[];
    }
    var root := stored.value;
    if !root.JObject? {
      return map[];
    }
    if MarksKey !in root.fields || !root.fields[MarksKey].JObject? {
      return map[];
    }
    result := DecodeEntries(root.fields[MarksKey].fields);
  }

  /** The store of marks, keyed by video identifier. */
  class MarkDatabase {
    var marks: map<string, Mark>

    /** `init()`: starts from whatever `load` reads. */
    constructor (stored: Option<Json>)
      ensures marks == LoadTree(stored)
    {
      var loaded := Load(stored);
      marks := loaded;
    }

    /** `set(url:mark:)`: records the mark, replacing any earlier one for that key. */
    method Set(url: string, mark: Mark)
      modifies this
      ensures marks == old(marks)[url := mark]
    {
      marks := marks[url := mark];
    }

    /** `get(url:)`: the mark stored under the key, if any. */
    method Get(url: string) returns (r: Option<Mark>)
      ensures url in marks <==> r.Some?
      ensures r.Some? ==> r.value == marks[url]
    {
      r := if url in marks then Some(marks[url]) else None;
    }

    /** `save`'s tree-building loop: the `{"marks": {...}}` tree that is then
        written to the file. */
    method Save() returns (root: Json)
      ensures root == SaveTree(marks)
    {
      var marksJSON: map<string, Json> := map[];
      var pending := marks.Keys;
      while pending != {}
        invariant pending <= marks.Keys
        invariant marksJSON.Keys == marks.Keys - pending
        invariant forall url :: url in marksJSON ==> marksJSON[url] == Encode(marks[url])
        decreases pending
      {
        var url :| url in pending;
        marksJSON := marksJSON[url := Encode(marks[url])];
        pending := pending - {url};
      }
      assert marksJSON == EncodeAll(marks);
      root := JObject(map[MarksKey := JObject(marksJSON)]);
    }
  }
}
