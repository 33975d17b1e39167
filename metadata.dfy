/** The exported sprite-sheet description and the tables `_parse` builds from it: the tag table
    and the layer table (name to record, last write wins) and the three-level frame table
    layer -> tag -> frame index -> frame entry. */
module Metadata {
  import opened Wrappers
  import opened Labels

  datatype Rect = Rect(x: int, y: int, w: int, h: int)

  datatype Size = Size(w: int, h: int)

  /** One value of the exported `frames` object: the trimmed frame's rectangle in the atlas
      (`frame`), where the trimmed region sits in the untrimmed canvas (`spriteSourceSize`), the
      untrimmed canvas size (`sourceSize`) and how long the frame shows, in milliseconds. */
  datatype FrameInfo = FrameInfo(frame: Rect, spriteSourceSize: Rect, sourceSize: Size, duration: nat)

  /** The record kept for a tag: its inclusive index range and its playback direction. */
  datatype Tag = Tag(from: int, to: int, direction: string)

  /** The record kept for a layer. */
  datatype Layer = Layer(opacity: int, blendMode: string)

  /** An entry of `meta.frameTags` or `meta.layers`: the name and the fields copied for it. */
  datatype Named<V> = Named(name: string, value: V)

  datatype Meta = Meta(image: string, format: string, size: Size, scale: int,
                       frameTags: seq<Named<Tag>>, layers: seq<Named<Layer>>)

  /** The parsed JSON description; `frames` lists the label/entry pairs in document order. */
  datatype Description = Description(meta: Meta, frames: seq<(string, FrameInfo)>)

  type FrameTable = map<string, map<string, map<nat, FrameInfo>>>

  /** The two KeyErrors playback can meet: a (layer, tag, index) triple missing from the frame
      table, and a tag name missing from the tag table. */
  datatype Error = FrameNotFound(key: FrameKey) | TagNotFound(tag: string)

  /** `frames[layer][tag][index]`: the entry stored under a key, None (a KeyError) as soon as
      one of the three levels lacks its part of the key. */
  function Lookup(frames: FrameTable, k: FrameKey): (r: Option<FrameInfo>)
    ensures r.Some? <==> k.layer in frames && k.tag in frames[k.layer] && k.index in frames[k.layer][k.tag]
    ensures r.Some? ==> r.value == frames[k.layer][k.tag][k.index]
  {
    if k.layer in frames && k.tag in frames[k.layer] && k.index in frames[k.layer][k.tag]
    then Some(frames[k.layer][k.tag][k.index])
    else None
  }

  /** No level of the table is empty: every layer holds a tag and every tag holds a frame. */
  predicate Populated(frames: FrameTable) {
    forall l :: l in frames ==> frames[l] != map[] && forall t :: t in frames[l] ==> frames[l][t] != map[]
  }

  /** `frames[layer][tag][index] = info`, creating the inner dictionaries when missing. */
  function Store(frames: FrameTable, k: FrameKey, info: FrameInfo): (r: FrameTable)
    ensures Lookup(r, k) == Some(info)
    ensures forall k' :: k' != k ==> Lookup(r, k') == Lookup(frames, k')
    ensures r.Keys == frames.Keys + {k.layer}
    ensures Populated(frames) ==> Populated(r)
  {
    var tags: map<string, map<nat, FrameInfo>> := if k.layer in frames then frames[k.layer] else map[];
    var indices: map<nat, FrameInfo> := if k.tag in tags then tags[k.tag] else map[];
    frames[k.layer := tags[k.tag := indices[k.index := info]]]
  }

  /** One entry read into the table: stored under its key, or skipped when there is none. */
  function Enter(frames: FrameTable, key: Option<FrameKey>, info: FrameInfo): FrameTable
  {
    match key
    case None => frames
    case Some(k) => Store(frames, k, info)
  }

  /** The frame table after the entries have been read in order, `key` telling under which
      triple a label stores its entry (None: the label is skipped). */
  function FramesBy(entries: seq<(string, FrameInfo)>, key: string -> Option<FrameKey>): (r: FrameTable)
    ensures |r.Keys| <= |entries|
  {
    if entries == [] then map[]
    else
      var last := entries[|entries| - 1];
      Enter(FramesBy(entries[..|entries| - 1], key), key(last.0), last.1)
  }

  /** Reading entries never leaves an empty layer or tag level behind. */
  lemma {:induction false} FramesPopulated(entries: seq<(string, FrameInfo)>, key: string -> Option<FrameKey>)
    ensures Populated(FramesBy(entries, key))
  {
    if entries != [] {
      FramesPopulated(entries[..|entries| - 1], key);
    }
  }

  /** The frame table `_parse` builds: labels classified by the frame-label pattern. It has no
      more layers than entries and no empty level. */
  function FrameTableOf(entries: seq<(string, FrameInfo)>): (r: FrameTable)
    ensures |r.Keys| <= |entries| && Populated(r)
  {
    FramesPopulated(entries, KeyOf);
    FramesBy(entries, KeyOf)
  }

  lemma {:induction false} FramesAbsent(entries: seq<(string, FrameInfo)>, key: string -> Option<FrameKey>, k: FrameKey)
    ensures Lookup(FramesBy(entries, key), k) == None
        <==> forall j :: 0 <= j < |entries| ==> key(entries[j].0) != Some(k)
  {
    if entries != [] {
      var init, last := entries[..|entries| - 1], entries[|entries| - 1];
      FramesAbsent(init, key, k);
      assert forall j :: 0 <= j < |init| ==> init[j] == entries[j];
    }
  }

  lemma {:induction false} FramesLastWins(entries: seq<(string, FrameInfo)>, key: string -> Option<FrameKey>, j: nat, k: FrameKey)
    requires j < |entries| && key(entries[j].0) == Some(k)
    requires forall j' :: j < j' < |entries| ==> key(entries[j'].0) != Some(k)
    ensures Lookup(FramesBy(entries, key), k) == Some(entries[j].1)
  {
    var init := entries[..|entries| - 1];
    if j < |entries| - 1 {
      assert forall j' :: j < j' < |init| ==> init[j'] == entries[j'];
      FramesLastWins(init, key, j, k);
    }
  }

  lemma {:induction false} FramesSkip(entries: seq<(string, FrameInfo)>, key: string -> Option<FrameKey>, j: nat)
    requires j < |entries| && key(entries[j].0) == None
    ensures FramesBy(entries[..j] + entries[j + 1..], key) == FramesBy(entries, key)
    decreases |entries|
  {
    var without := entries[..j] + entries[j + 1..];
    var init, last := entries[..|entries| - 1], entries[|entries| - 1];
    if j == |entries| - 1 {
      assert without == init;
    } else {
      assert init[j] == entries[j];
      FramesSkip(init, key, j);
      assert FramesBy(without, key) == Enter(FramesBy(init[..j] + init[j + 1..], key), key(last.0), last.1) by {
        assert without[..|without| - 1] == init[..j] + init[j + 1..];
        assert without[|without| - 1] == last;
      }
    }
  }

  /** A key is absent from the frame table exactly when no entry's label names it. */
  lemma FrameTableAbsent(entries: seq<(string, FrameInfo)>, k: FrameKey)
    ensures Lookup(FrameTableOf(entries), k) == None
        <==> forall j :: 0 <= j < |entries| ==> KeyOf(entries[j].0) != Some(k)
  {
    FramesAbsent(entries, KeyOf, k);
  }

  /** The entry stored under a key is the one of the last label that names it. */
  lemma FrameTableLastWins(entries: seq<(string, FrameInfo)>, j: nat, k: FrameKey)
    requires j < |entries| && KeyOf(entries[j].0) == Some(k)
    requires forall j' :: j < j' < |entries| ==> KeyOf(entries[j'].0) != Some(k)
    ensures Lookup(FrameTableOf(entries), k) == Some(entries[j].1)
  {
    FramesLastWins(entries, KeyOf, j, k);
  }

  /** A label the pattern rejects contributes nothing: removing it leaves the whole table, every
      layer and every tag in it, unchanged. */
  lemma RejectedLabelIgnored(entries: seq<(string, FrameInfo)>, j: nat)
    requires j < |entries| && KeyOf(entries[j].0) == None
    ensures FrameTableOf(entries[..j] + entries[j + 1..]) == FrameTableOf(entries)
  {
    FramesSkip(entries, KeyOf, j);
  }

  /** A name-keyed table built by assigning the entries in order (`table[e.name] = e.value`). */
  function TableOf<V>(entries: seq<Named<V>>): (r: map<string, V>)
    ensures forall j :: 0 <= j < |entries| ==> entries[j].name in r
  {
    if entries == [] then map[]
    else
      var init, e := entries[..|entries| - 1], entries[|entries| - 1];
      assert forall j :: 0 <= j < |init| ==> init[j] == entries[j];
      TableOf(init)[e.name := e.value]
  }

  predicate Distinct(names: seq<string>) {
    forall i, j :: 0 <= i < j < |names| ==> names[i] != names[j]
  }

  /** The keys of such a table in dictionary order: each name where it first appears. */
  function KeyOrder<V>(entries: seq<Named<V>>): (names: seq<string>)
    ensures Distinct(names)
    ensures forall n :: n in names <==> n in TableOf(entries)
  {
    if entries == [] then []
    else
      var prev := KeyOrder(entries[..|entries| - 1]);
      var e := entries[|entries| - 1];
      if e.name in prev then prev else prev + [e.name]
  }

  /** A name is a key exactly when some entry carries it. */
  lemma {:induction false} TableKeys<V>(entries: seq<Named<V>>, name: string)
    ensures name in TableOf(entries) <==> exists j :: 0 <= j < |entries| && entries[j].name == name
  {
    if entries != [] {
      var init := entries[..|entries| - 1];
      TableKeys(init, name);
      assert forall j :: 0 <= j < |init| ==> init[j] == entries[j];
      if entries[|entries| - 1].name == name {
        assert entries[|entries| - 1].name == name;
      }
    }
  }

  /** The record kept under a name is exactly the fields of the last entry with that name. */
  lemma {:induction false} TableLastWins<V>(entries: seq<Named<V>>, j: nat)
    requires j < |entries|
    requires forall j' :: j < j' < |entries| ==> entries[j'].name != entries[j].name
    ensures entries[j].name in TableOf(entries) && TableOf(entries)[entries[j].name] == entries[j].value
  {
    var init := entries[..|entries| - 1];
    if j < |entries| - 1 {
      assert forall j' :: j < j' < |init| ==> init[j'] == entries[j'];
      TableLastWins(init, j);
    }
  }

  /** The loop of `_parse` over `meta.frameTags` or `meta.layers`: assigns each entry under its
      name and keeps the dictionary's key order. */
  method LoadTable<V>(entries: seq<Named<V>>) returns (table: map<string, V>, names: seq<string>)
    ensures table == TableOf(entries) && names == KeyOrder(entries)
  {
    table, names := map[], [];
    for i := 0 to |entries|
      invariant table == TableOf(entries[..i])
      invariant names == KeyOrder(entries[..i])
    {
      var e := entries[i];
      assert entries[..i + 1][..i] == entries[..i];
      if e.name !in table {
        names := names + [e.name];
      }
      table := table[e.name := e.value];
    }
    assert entries[..|entries|] == entries;
  }

  /** `frames[layer][tag][index] = info` as `_parse` writes it: create the layer level and the
      tag level when missing, then assign the entry. */
  method StoreFrame(frames: FrameTable, k: FrameKey, info: FrameInfo) returns (r: FrameTable)
    ensures r == Store(frames, k, info)
  {
    ghost var tags: map<string, map<nat, FrameInfo>> := if k.layer in frames then frames[k.layer] else map[];
    ghost var indices: map<nat, FrameInfo> := if k.tag in tags then tags[k.tag] else map[];
    r := frames;
    if k.layer !in r {
      r := r[k.layer := map[]];
    }
    assert r == frames[k.layer := tags];
    if k.tag !in r[k.layer] {
      r := r[k.layer := r[k.layer][k.tag := map[]]];
    }
    assert r[k.layer] == tags[k.tag := indices];
    assert r == frames[k.layer := tags[k.tag := indices]];
    assert r[k.layer][k.tag] == indices;
    assert r[k.layer][k.tag := indices[k.index := info]] == tags[k.tag := indices[k.index := info]];
    r := r[k.layer := r[k.layer][k.tag := r[k.layer][k.tag][k.index := info]]];
  }

  /** The body of the loop of `_parse` over `frames`: match the label and, when it matches, store
      the entry under its layer, its tag and the decimal value of its index. */
  method AddFrame(frames: FrameTable, text: string, info: FrameInfo) returns (r: FrameTable)
    ensures r == Enter(frames, KeyOf(text), info)
  {
    r := frames;
    var m := MatchLabel(text);
    if m.Some? {
      r := StoreFrame(frames, FrameKey(m.value.layer, m.value.tag, DecimalValue(m.value.digits)), info);
    }
  }

  /** The loop of `_parse` over `frames`, in document order. */
  method LoadFrames(entries: seq<(string, FrameInfo)>) returns (frames: FrameTable)
    ensures frames == FrameTableOf(entries)
  {
    frames := map[];
    for i := 0 to |entries|
      invariant frames == FramesBy(entries[..i], KeyOf)
    {
      assert entries[..i + 1][..i] == entries[..i];
      frames := AddFrame(frames, entries[i].0, entries[i].1);
    }
    assert entries[..|entries|] == entries;
  }
}
