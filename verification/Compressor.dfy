/** Compression of tool output inside a request body.  Filters and their detection are a parameter.
    The source rewrites the body in place; here each method returns the rewritten value, while the
    statistics are an object updated in place. */
module Compressor {
  import opened Types

  const RAW_CAP := 10485760
  const MIN_COMPRESS_SIZE := 500

  datatype Json =
    | Null
    | Bool(flag: bool)
    | Number(value: real)
    | Str(text: string)
    | Arr(items: seq<Json>)
    | Obj(fields: map<string, Json>)

  datatype Filter = Filter(name: string, apply: string -> string)

  datatype Hit = Hit(filter: string, saved: nat)

  /** Length in bytes of the UTF-8 form. */
  function ByteLen(s: string): nat {
    if s == "" then 0 else CharLen(s[0]) + ByteLen(s[1..])
  }

  function CharLen(c: char): nat {
    if c as int < 0x80 then 1 else if c as int < 0x800 then 2 else if c as int < 0x1_0000 then 3 else 4
  }

  // ----- one string ---------------------------------------------------------------------------------------

  datatype Totals = Totals(before: nat, after: nat, hits: seq<Hit>)

  const NOTHING := Totals(0, 0, [])

  class CompressionStats {
    var bytesBefore: nat
    var bytesAfter: nat
    var hits: seq<Hit>

    function View(): Totals
      reads this
    {
      Totals(bytesBefore, bytesAfter, hits)
    }

    constructor ()
      ensures View() == NOTHING
    {
      bytesBefore, bytesAfter, hits := 0, 0, [];
    }

    /** For statistics in balance, as they always are, this is what the hits saved: the saturation never acts. */
    method Savings() returns (n: nat)
      ensures Balanced(View()) ==> n == Saved(hits)
      ensures n > 0 <==> bytesAfter < bytesBefore
      ensures n > 0 ==> bytesAfter + n == bytesBefore
    {
      n := if bytesBefore < bytesAfter then 0 else bytesBefore - bytesAfter;
    }

    /** Compress one string, or leave it alone when it is too small or too large, when no filter applies,
        or when the filter's result would be empty or no shorter. */
    method CompressText(text: string, detect: string -> Option<Filter>) returns (out: string)
      modifies this
      ensures out == Compressed(text, detect)
      ensures View() == Added(old(View()), text, detect)
      ensures old(Balanced(View())) ==> Balanced(View())
    {
      if Balanced(View()) { AddedBalances(View(), text, detect); }
      var bytesIn := ByteLen(text);
      bytesBefore := bytesBefore + bytesIn;
      if bytesIn < MIN_COMPRESS_SIZE || bytesIn > RAW_CAP {
        bytesAfter := bytesAfter + bytesIn;
        return text;
      }
      var filter := detect(text);
      if filter.None? {
        bytesAfter := bytesAfter + bytesIn;
        return text;
      }
      out := filter.value.apply(text);
      if out == "" || ByteLen(out) >= bytesIn {
        bytesAfter := bytesAfter + bytesIn;
        return text;
      }
      bytesAfter := bytesAfter + ByteLen(out);
      hits := hits + [Hit(filter.value.name, bytesIn - ByteLen(out))];
    }
  }

  predicate Compressible(text: string, detect: string -> Option<Filter>) {
    && MIN_COMPRESS_SIZE <= ByteLen(text) <= RAW_CAP
    && detect(text).Some?
    && detect(text).value.apply(text) != ""
    && ByteLen(detect(text).value.apply(text)) < ByteLen(text)
  }

  function Compressed(text: string, detect: string -> Option<Filter>): string {
    if Compressible(text, detect) then detect(text).value.apply(text) else text
  }

  function Added(t: Totals, text: string, detect: string -> Option<Filter>): Totals {
    var out := Compressed(text, detect);
    Totals(
      t.before + ByteLen(text),
      t.after + ByteLen(out),
      if Compressible(text, detect) then t.hits + [Hit(detect(text).value.name, ByteLen(text) - ByteLen(out))]
      else t.hits)
  }

  function Tally(t: Totals, texts: seq<string>, detect: string -> Option<Filter>): Totals {
    if texts == [] then t else Added(Tally(t, texts[..|texts| - 1], detect), texts[|texts| - 1], detect)
  }

  // ----- where the eligible strings are -----------------------------------------------------------------------

  function Get(v: Json, key: string): Option<Json> {
    if v.Obj? && key in v.fields then Some(v.fields[key]) else None
  }

  function Set(v: Json, key: string, x: Json): Json
    requires v.Obj?
  {
    Obj(v.fields[key := x])
  }

  predicate HasText(v: Json, key: string, text: string) {
    Get(v, key) == Some(Str(text))
  }

  /** A part of this kind that carries a string under "text". */
  predicate IsTextPart(part: Json, kind: string) {
    HasText(part, "type", kind) && Get(part, "text").Some? && Get(part, "text").value.Str?
  }

  /** A tool result that is not an error trace. */
  predicate IsToolResult(block: Json) {
    HasText(block, "type", "tool_result") && Get(block, "is_error") != Some(Bool(true))
  }

  predicate IsToolMessage(msg: Json) {
    HasText(msg, "role", "tool")
  }

  predicate IsFunctionOutput(msg: Json) {
    HasText(msg, "type", "function_call_output")
  }

  // Applying a function to every eligible string, level by level ...

  function MapPart(part: Json, kind: string, f: string -> string): Json {
    if IsTextPart(part, kind) then Set(part, "text", Str(f(Get(part, "text").value.text))) else part
  }

  function MapParts(parts: seq<Json>, kind: string, f: string -> string): seq<Json> {
    if parts == [] then [] else MapParts(parts[..|parts| - 1], kind, f) + [MapPart(parts[|parts| - 1], kind, f)]
  }

  /** A string, or an array of parts. */
  function MapContent(v: Json, kind: string, f: string -> string): Json {
    match v
    case Str(s) => Str(f(s))
    case Arr(parts) => Arr(MapParts(parts, kind, f))
    case _ => v
  }

  function MapField(v: Json, key: string, kind: string, f: string -> string): Json {
    if Get(v, key).Some? then Set(v, key, MapContent(Get(v, key).value, kind, f)) else v
  }

  function MapBlock(block: Json, f: string -> string): Json {
    if IsToolResult(block) then MapField(block, "content", "text", f) else block
  }

  function MapBlocks(blocks: seq<Json>, f: string -> string): seq<Json> {
    if blocks == [] then [] else MapBlocks(blocks[..|blocks| - 1], f) + [MapBlock(blocks[|blocks| - 1], f)]
  }

  function MapToolResults(msg: Json, f: string -> string): Json {
    match Get(msg, "content")
    case Some(Arr(blocks)) => Set(msg, "content", Arr(MapBlocks(blocks, f)))
    case _ => msg
  }

  function MapOutput(msg: Json, f: string -> string): Json {
    if IsFunctionOutput(msg) then MapField(msg, "output", "input_text", f) else msg
  }

  function MapMessage(msg: Json, f: string -> string): Json {
    if IsToolMessage(msg) then MapField(msg, "content", "text", f) else MapOutput(MapToolResults(msg, f), f)
  }

  function MapMessages(items: seq<Json>, f: string -> string): seq<Json> {
    if items == [] then [] else MapMessages(items[..|items| - 1], f) + [MapMessage(items[|items| - 1], f)]
  }

  function ArrayKey(body: Json): string {
    if Get(body, "messages").Some? then "messages" else "input"
  }

  function MessagesOf(body: Json): Option<seq<Json>> {
    match Get(body, ArrayKey(body))
    case Some(Arr(items)) => Some(items)
    case _ => None
  }

  function MapBody(body: Json, f: string -> string): Json {
    match MessagesOf(body)
    case Some(items) => Set(body, ArrayKey(body), Arr(MapMessages(items, f)))
    case None => body
  }

  // ... and listing them, in the same order.

  function PartTexts(part: Json, kind: string): seq<string> {
    if IsTextPart(part, kind) then [Get(part, "text").value.text] else []
  }

  function PartsTexts(parts: seq<Json>, kind: string): seq<string> {
    if parts == [] then [] else PartsTexts(parts[..|parts| - 1], kind) + PartTexts(parts[|parts| - 1], kind)
  }

  function ContentTexts(v: Json, kind: string): seq<string> {
    match v
    case Str(s) => [s]
    case Arr(parts) => PartsTexts(parts, kind)
    case _ => []
  }

  function FieldTexts(v: Json, key: string, kind: string): seq<string> {
    if Get(v, key).Some? then ContentTexts(Get(v, key).value, kind) else []
  }

  function BlockTexts(block: Json): seq<string> {
    if IsToolResult(block) then FieldTexts(block, "content", "text") else []
  }

  function BlocksTexts(blocks: seq<Json>): seq<string> {
    if blocks == [] then [] else BlocksTexts(blocks[..|blocks| - 1]) + BlockTexts(blocks[|blocks| - 1])
  }

  function ToolResultTexts(msg: Json): seq<string> {
    match Get(msg, "content")
    case Some(Arr(blocks)) => BlocksTexts(blocks)
    case _ => []
  }

  function OutputTexts(msg: Json): seq<string> {
    if IsFunctionOutput(msg) then FieldTexts(msg, "output", "input_text") else []
  }

  function MessageTexts(msg: Json): seq<string> {
    if IsToolMessage(msg) then FieldTexts(msg, "content", "text") else ToolResultTexts(msg) + OutputTexts(msg)
  }

  function MessagesTexts(items: seq<Json>): seq<string> {
    if items == [] then [] else MessagesTexts(items[..|items| - 1]) + MessageTexts(items[|items| - 1])
  }

  function EligibleTexts(body: Json): seq<string> {
    match MessagesOf(body)
    case Some(items) => MessagesTexts(items)
    case None => []
  }

  // ----- the traversal ------------------------------------------------------------------------------------------

  function Squeeze(detect: string -> Option<Filter>): string -> string {
    text => Compressed(text, detect)
  }

  lemma {:induction false} TallyJoin(t: Totals, a: seq<string>, b: seq<string>, detect: string -> Option<Filter>)
    ensures Tally(t, a + b, detect) == Tally(Tally(t, a, detect), b, detect)
  {
    if b == [] {
      assert a + b == a;
    } else {
      TallyJoin(t, a, b[..|b| - 1], detect);
      assert (a + b)[..|a + b| - 1] == a + b[..|b| - 1];
    }
  }

  method CompressParts(parts: seq<Json>, kind: string, detect: string -> Option<Filter>, stats: CompressionStats)
    returns (r: seq<Json>)
    modifies stats
    ensures r == MapParts(parts, kind, Squeeze(detect))
    ensures stats.View() == Tally(old(stats.View()), PartsTexts(parts, kind), detect)
  {
    r := [];
    for i := 0 to |parts|
      invariant r == MapParts(parts[..i], kind, Squeeze(detect))
      invariant stats.View() == Tally(old(stats.View()), PartsTexts(parts[..i], kind), detect)
    {
      var part := parts[i];
      assert parts[..i + 1][..i] == parts[..i];
      TallyJoin(old(stats.View()), PartsTexts(parts[..i], kind), PartTexts(part, kind), detect);
      if IsTextPart(part, kind) {
        var text := Get(part, "text").value.text;
        assert Tally(stats.View(), [text], detect) == Added(stats.View(), text, detect) by { assert [text][..0] == []; }
        var out := stats.CompressText(text, detect);
        part := Set(part, "text", Str(out));
      }
      r := r + [part];
    }
    assert parts[..|parts|] == parts;
  }

  /** Compress what a field holds: a string, or the parts of an array. */
  method CompressField(v: Json, key: string, kind: string, detect: string -> Option<Filter>, stats: CompressionStats)
    returns (r: Json)
    modifies stats
    ensures r == MapField(v, key, kind, Squeeze(detect))
    ensures stats.View() == Tally(old(stats.View()), FieldTexts(v, key, kind), detect)
  {
    r := v;
    match Get(v, key)
    case Some(Str(text)) =>
      assert Tally(stats.View(), [text], detect) == Added(stats.View(), text, detect) by { assert [text][..0] == []; }
      var out := stats.CompressText(text, detect);
      r := Set(v, key, Str(out));
    case Some(Arr(parts)) =>
      var mapped := CompressParts(parts, kind, detect, stats);
      r := Set(v, key, Arr(mapped));
    case Some(other) => assert v == Set(v, key, other);
    case None =>
  }

  method CompressBlocks(blocks: seq<Json>, detect: string -> Option<Filter>, stats: CompressionStats)
    returns (r: seq<Json>)
    modifies stats
    ensures r == MapBlocks(blocks, Squeeze(detect))
    ensures stats.View() == Tally(old(stats.View()), BlocksTexts(blocks), detect)
  {
    r := [];
    for i := 0 to |blocks|
      invariant r == MapBlocks(blocks[..i], Squeeze(detect))
      invariant stats.View() == Tally(old(stats.View()), BlocksTexts(blocks[..i]), detect)
    {
      var block := blocks[i];
      assert blocks[..i + 1][..i] == blocks[..i];
      TallyJoin(old(stats.View()), BlocksTexts(blocks[..i]), BlockTexts(block), detect);
      if IsToolResult(block) {
        block := CompressField(block, "content", "text", detect, stats);
      }
      r := r + [block];
    }
    assert blocks[..|blocks|] == blocks;
  }

  method CompressMessage(msg: Json, detect: string -> Option<Filter>, stats: CompressionStats) returns (r: Json)
    modifies stats
    ensures r == MapMessage(msg, Squeeze(detect))
    ensures stats.View() == Tally(old(stats.View()), MessageTexts(msg), detect)
  {
    r := msg;
    if IsToolMessage(msg) {
      r := CompressField(msg, "content", "text", detect, stats);
      return;
    }
    TallyJoin(stats.View(), ToolResultTexts(msg), OutputTexts(msg), detect);
    r := CompressToolResults(msg, detect, stats);
    OutputApart(msg, Squeeze(detect));
    if IsFunctionOutput(r) {
      r := CompressField(r, "output", "input_text", detect, stats);
    }
  }

  method CompressToolResults(msg: Json, detect: string -> Option<Filter>, stats: CompressionStats) returns (r: Json)
    modifies stats
    ensures r == MapToolResults(msg, Squeeze(detect))
    ensures stats.View() == Tally(old(stats.View()), ToolResultTexts(msg), detect)
  {
    match Get(msg, "content")
    case Some(Arr(blocks)) =>
      var mapped := CompressBlocks(blocks, detect, stats);
      r := Set(msg, "content", Arr(mapped));
    case _ => r := msg;
  }

  lemma DistinctKeys()
    ensures "type" != "text" && "type" != "content" && "is_error" != "content" && "role" != "content"
    ensures "output" != "content" && "type" != "output" && "role" != "output" && "messages" != "input"
  {
    assert "type"[1] != "text"[1];
    assert "role"[0] != "content"[0] && "is_error"[0] != "content"[0] && "type"[0] != "content"[0];
    assert "output"[0] != "content"[0] && "type"[0] != "output"[0] && "role"[0] != "output"[0];
    assert "messages"[0] != "input"[0];
  }

  /** Rewriting tool results leaves the function output of the same message alone. */
  lemma OutputApart(msg: Json, f: string -> string)
    ensures var r := MapToolResults(msg, f);
      IsFunctionOutput(r) == IsFunctionOutput(msg) && OutputTexts(r) == OutputTexts(msg)
      && Get(r, "output") == Get(msg, "output")
  {
    DistinctKeys();
  }

  /** The entry point: nothing when disabled or when the body has no message array. */
  method CompressMessages(body: Json, enabled: bool, detect: string -> Option<Filter>)
    returns (r: Json, totals: Option<Totals>)
    ensures enabled && MessagesOf(body).Some? ==>
      r == MapBody(body, Squeeze(detect)) && totals == Some(Tally(NOTHING, EligibleTexts(body), detect))
    ensures !(enabled && MessagesOf(body).Some?) ==> r == body && totals == None
  {
    if !enabled {
      return body, None;
    }
    var key := ArrayKey(body);
    match Get(body, key)
    case Some(Arr(items)) =>
      var stats := new CompressionStats();
      var mapped := [];
      for i := 0 to |items|
        invariant mapped == MapMessages(items[..i], Squeeze(detect))
        invariant fresh(stats) && stats.View() == Tally(NOTHING, MessagesTexts(items[..i]), detect)
      {
        assert items[..i + 1][..i] == items[..i];
        TallyJoin(NOTHING, MessagesTexts(items[..i]), MessageTexts(items[i]), detect);
        var msg := CompressMessage(items[i], detect, stats);
        assert MapMessages(items[..i + 1], Squeeze(detect)) == mapped + [msg];
        mapped := mapped + [msg];
      }
      assert items[..|items|] == items;
      return Set(body, key, Arr(mapped)), Some(stats.View());
    case _ => return body, None;
  }

  // ----- accounting ---------------------------------------------------------------------------------------------

  function MapTexts(texts: seq<string>, f: string -> string): seq<string> {
    if texts == [] then [] else MapTexts(texts[..|texts| - 1], f) + [f(texts[|texts| - 1])]
  }

  function Bytes(texts: seq<string>): nat {
    if texts == [] then 0 else Bytes(texts[..|texts| - 1]) + ByteLen(texts[|texts| - 1])
  }

  function Saved(hits: seq<Hit>): nat {
    if hits == [] then 0 else Saved(hits[..|hits| - 1]) + hits[|hits| - 1].saved
  }

  /** No string grows or becomes newly empty, and one that changes gets strictly shorter. */
  lemma CompressedShrinks(text: string, detect: string -> Option<Filter>)
    ensures var out := Compressed(text, detect);
      && ByteLen(out) <= ByteLen(text)
      && (out == "" <==> text == "")
      && (out != text ==> Compressible(text, detect) && ByteLen(out) < ByteLen(text))
  {
    if Compressible(text, detect) { assert text != ""; }
  }

  /** The two totals are the summed lengths before and after, and the hits account for the difference. */
  lemma {:induction false} TallyAccounts(texts: seq<string>, detect: string -> Option<Filter>)
    ensures var t := Tally(NOTHING, texts, detect);
      && t.before == Bytes(texts)
      && t.after == Bytes(MapTexts(texts, Squeeze(detect)))
      && Balanced(t)
  {
    if texts != [] {
      var front, last := texts[..|texts| - 1], texts[|texts| - 1];
      TallyAccounts(front, detect);
      AddedBalances(Tally(NOTHING, front, detect), last, detect);
    }
  }

  /** The hits, in order: one for each eligible string that was replaced, with its filter and the bytes saved. */
  function HitsOf(texts: seq<string>, detect: string -> Option<Filter>): seq<Hit> {
    if texts == [] then []
    else
      var before, text := HitsOf(texts[..|texts| - 1], detect), texts[|texts| - 1];
      var out := Compressed(text, detect);
      if out != text && detect(text).Some? && ByteLen(out) < ByteLen(text) then
        before + [Hit(detect(text).value.name, ByteLen(text) - ByteLen(out))]
      else before
  }

  lemma {:induction false} HitsExactly(texts: seq<string>, detect: string -> Option<Filter>)
    ensures Tally(NOTHING, texts, detect).hits == HitsOf(texts, detect)
  {
    if texts != [] {
      HitsExactly(texts[..|texts| - 1], detect);
      CompressedShrinks(texts[|texts| - 1], detect);
    }
  }

  /** Lengths add up, plain ASCII takes one byte a character, and nothing takes more than four. */
  lemma {:induction false} BytesJoin(a: string, b: string)
    ensures ByteLen(a + b) == ByteLen(a) + ByteLen(b) && |a| <= ByteLen(a) <= 4 * |a|
  {
    if a == "" {
      assert a + b == b;
    } else {
      assert (a + b)[1..] == a[1..] + b;
      BytesJoin(a[1..], b);
    }
  }

  /** One character of each width. */
  lemma Utf8Widths()
    ensures ByteLen("\U{007F}") == 1 && ByteLen("\U{0080}") == 2 && ByteLen("\U{07FF}") == 2
    ensures ByteLen("\U{0800}") == 3 && ByteLen("\U{FFFF}") == 3 && ByteLen("\U{10000}") == 4
  {
    assert ByteLen("") == 0;
  }

  /** One string, in plain numbers: it is replaced by what its filter makes of it exactly when it has 500 bytes
      to 10 MiB, some filter applies, and that makes it shorter but not empty. */
  lemma CompressedExactly(text: string, detect: string -> Option<Filter>)
    ensures var out, filter := Compressed(text, detect), detect(text);
      if 500 <= ByteLen(text) <= 10 * 1024 * 1024 && filter.Some?
         && 0 < ByteLen(filter.value.apply(text)) < ByteLen(text)
      then out == filter.value.apply(text) else out == text
  {
  }

  /** The savings of the hits add up to the difference of the totals, and every hit saves something. */
  ghost predicate Balanced(t: Totals) {
    t.before == t.after + Saved(t.hits) && forall i :: 0 <= i < |t.hits| ==> t.hits[i].saved > 0
  }

  lemma AddedBalances(t: Totals, text: string, detect: string -> Option<Filter>)
    requires Balanced(t)
    ensures Balanced(Added(t, text, detect))
  {
    if Compressible(text, detect) {
      var hit := Hit(detect(text).value.name, ByteLen(text) - ByteLen(Compressed(text, detect)));
      assert (t.hits + [hit])[..|t.hits|] == t.hits;
    }
  }

  // ----- only eligible strings change ------------------------------------------------------------------------------

  lemma {:induction false} MapTextsJoin(a: seq<string>, b: seq<string>, f: string -> string)
    ensures MapTexts(a + b, f) == MapTexts(a, f) + MapTexts(b, f)
  {
    if b == [] {
      assert a + b == a;
    } else {
      MapTextsJoin(a, b[..|b| - 1], f);
      assert (a + b)[..|a + b| - 1] == a + b[..|b| - 1];
    }
  }

  /** `g` does not see what `f` does. */
  ghost predicate Absorbs(g: string -> string, f: string -> string) {
    forall t :: g(f(t)) == g(t)
  }

  lemma PartLaws(part: Json, kind: string, f: string -> string, g: string -> string)
    requires Absorbs(g, f)
    ensures PartTexts(MapPart(part, kind, f), kind) == MapTexts(PartTexts(part, kind), f)
    ensures MapPart(MapPart(part, kind, f), kind, g) == MapPart(part, kind, g)
  {
    DistinctKeys();
    if IsTextPart(part, kind) {
      var t := Get(part, "text").value.text;
      assert [t][..0] == [];
      assert part.fields["text" := Str(f(t))]["text" := Str(g(t))] == part.fields["text" := Str(g(t))];
    }
  }

  lemma {:induction false} PartsLaws(parts: seq<Json>, kind: string, f: string -> string, g: string -> string)
    requires Absorbs(g, f)
    ensures PartsTexts(MapParts(parts, kind, f), kind) == MapTexts(PartsTexts(parts, kind), f)
    ensures MapParts(MapParts(parts, kind, f), kind, g) == MapParts(parts, kind, g)
  {
    if parts != [] {
      var front, last := parts[..|parts| - 1], parts[|parts| - 1];
      PartsLaws(front, kind, f, g);
      PartLaws(last, kind, f, g);
      MapTextsJoin(PartsTexts(front, kind), PartTexts(last, kind), f);
      var mapped := MapParts(front, kind, f);
      assert (mapped + [MapPart(last, kind, f)])[..|mapped|] == mapped;
    }
  }

  lemma ContentLaws(v: Json, kind: string, f: string -> string, g: string -> string)
    requires Absorbs(g, f)
    ensures ContentTexts(MapContent(v, kind, f), kind) == MapTexts(ContentTexts(v, kind), f)
    ensures MapContent(MapContent(v, kind, f), kind, g) == MapContent(v, kind, g)
  {
    match v
    case Str(s) => assert [s][..0] == [];
    case Arr(parts) => PartsLaws(parts, kind, f, g);
    case _ =>
  }

  lemma FieldLaws(v: Json, key: string, kind: string, f: string -> string, g: string -> string)
    requires Absorbs(g, f)
    ensures FieldTexts(MapField(v, key, kind, f), key, kind) == MapTexts(FieldTexts(v, key, kind), f)
    ensures MapField(MapField(v, key, kind, f), key, kind, g) == MapField(v, key, kind, g)
    ensures forall k :: k != key ==> Get(MapField(v, key, kind, f), k) == Get(v, k)
  {
    if Get(v, key).Some? {
      var x := Get(v, key).value;
      ContentLaws(x, kind, f, g);
      var y, z := MapContent(x, kind, f), MapContent(x, kind, g);
      assert v.fields[key := y][key := z] == v.fields[key := z];
    }
  }

  lemma BlockLaws(block: Json, f: string -> string, g: string -> string)
    requires Absorbs(g, f)
    ensures BlockTexts(MapBlock(block, f)) == MapTexts(BlockTexts(block), f)
    ensures MapBlock(MapBlock(block, f), g) == MapBlock(block, g)
  {
    DistinctKeys();
    FieldLaws(block, "content", "text", f, g);
  }

  lemma {:induction false} BlocksLaws(blocks: seq<Json>, f: string -> string, g: string -> string)
    requires Absorbs(g, f)
    ensures BlocksTexts(MapBlocks(blocks, f)) == MapTexts(BlocksTexts(blocks), f)
    ensures MapBlocks(MapBlocks(blocks, f), g) == MapBlocks(blocks, g)
  {
    if blocks != [] {
      var front, last := blocks[..|blocks| - 1], blocks[|blocks| - 1];
      BlocksLaws(front, f, g);
      BlockLaws(last, f, g);
      MapTextsJoin(BlocksTexts(front), BlockTexts(last), f);
      var mapped := MapBlocks(front, f);
      assert (mapped + [MapBlock(last, f)])[..|mapped|] == mapped;
    }
  }

  lemma SetLaws(v: Json, key: string, y: Json, z: Json)
    requires v.Obj?
    ensures Set(Set(v, key, y), key, z) == Set(v, key, z) && Get(Set(v, key, y), key) == Some(y)
    ensures forall k :: k != key ==> Get(Set(v, key, y), k) == Get(v, k)
  {
    assert v.fields[key := y][key := z] == v.fields[key := z];
  }

  lemma ToolResultLaws(msg: Json, f: string -> string, g: string -> string)
    requires Absorbs(g, f)
    ensures ToolResultTexts(MapToolResults(msg, f)) == MapTexts(ToolResultTexts(msg), f)
    ensures MapToolResults(MapToolResults(msg, f), g) == MapToolResults(msg, g)
  {
    match Get(msg, "content")
    case Some(Arr(blocks)) =>
      BlocksLaws(blocks, f, g);
      SetLaws(msg, "content", Arr(MapBlocks(blocks, f)), Arr(MapBlocks(blocks, g)));
    case _ =>
  }

  lemma OutputLaws(msg: Json, f: string -> string, g: string -> string)
    requires Absorbs(g, f)
    ensures OutputTexts(MapOutput(msg, f)) == MapTexts(OutputTexts(msg), f)
    ensures MapOutput(MapOutput(msg, f), g) == MapOutput(msg, g)
    ensures forall k :: k != "output" ==> Get(MapOutput(msg, f), k) == Get(msg, k)
  {
    DistinctKeys();
    FieldLaws(msg, "output", "input_text", f, g);
  }

  /** The two kinds of tool output in one message sit in different fields, so their order does not matter. */
  lemma OutputCommutes(msg: Json, f: string -> string, g: string -> string)
    ensures MapToolResults(MapOutput(msg, f), g) == MapOutput(MapToolResults(msg, g), f)
  {
    DistinctKeys();
    OutputApart(msg, g);
    if IsFunctionOutput(msg) && Get(msg, "output").Some? {
      var y := MapContent(Get(msg, "output").value, "input_text", f);
      SetLaws(msg, "output", y, y);
      match Get(msg, "content")
      case Some(Arr(blocks)) =>
        var z := Arr(MapBlocks(blocks, g));
        assert msg.fields["output" := y]["content" := z] == msg.fields["content" := z]["output" := y];
      case _ =>
    }
  }

  lemma PlainMessageLaws(msg: Json, f: string -> string, g: string -> string)
    requires Absorbs(g, f) && !IsToolMessage(msg)
    ensures MessageTexts(MapMessage(msg, f)) == MapTexts(MessageTexts(msg), f)
    ensures MapMessage(MapMessage(msg, f), g) == MapMessage(msg, g)
  {
    DistinctKeys();
    var a := MapToolResults(msg, f);
    var b := MapOutput(a, f);
    OutputLaws(a, f, g);
    assert !IsToolMessage(b);
    assert MessageTexts(b) == MapTexts(MessageTexts(msg), f) by {
      ToolResultLaws(msg, f, g);
      OutputApart(msg, f);
      MapTextsJoin(ToolResultTexts(msg), OutputTexts(msg), f);
      assert Get(b, "content") == Get(a, "content");
    }
    calc {
      MapMessage(b, g);
      MapOutput(MapToolResults(MapOutput(a, f), g), g);
      { OutputCommutes(a, f, g); }
      MapOutput(MapOutput(MapToolResults(a, g), f), g);
      { OutputLaws(MapToolResults(a, g), f, g); ToolResultLaws(msg, f, g); }
      MapOutput(MapToolResults(msg, g), g);
      MapMessage(msg, g);
    }
  }

  lemma MessageLaws(msg: Json, f: string -> string, g: string -> string)
    requires Absorbs(g, f)
    ensures MessageTexts(MapMessage(msg, f)) == MapTexts(MessageTexts(msg), f)
    ensures MapMessage(MapMessage(msg, f), g) == MapMessage(msg, g)
  {
    if IsToolMessage(msg) {
      DistinctKeys();
      FieldLaws(msg, "content", "text", f, g);
    } else {
      PlainMessageLaws(msg, f, g);
    }
  }

  lemma {:induction false} MessagesLaws(items: seq<Json>, f: string -> string, g: string -> string)
    requires Absorbs(g, f)
    ensures MessagesTexts(MapMessages(items, f)) == MapTexts(MessagesTexts(items), f)
    ensures MapMessages(MapMessages(items, f), g) == MapMessages(items, g)
  {
    if items != [] {
      var front, last := items[..|items| - 1], items[|items| - 1];
      MessagesLaws(front, f, g);
      MessageLaws(last, f, g);
      MapTextsJoin(MessagesTexts(front), MessageTexts(last), f);
      var mapped := MapMessages(front, f);
      assert (mapped + [MapMessage(last, f)])[..|mapped|] == mapped;
    }
  }

  lemma BodyLaws(body: Json, f: string -> string, g: string -> string)
    requires Absorbs(g, f)
    ensures MessagesOf(MapBody(body, f)).Some? == MessagesOf(body).Some?
    ensures EligibleTexts(MapBody(body, f)) == MapTexts(EligibleTexts(body), f)
    ensures MapBody(MapBody(body, f), g) == MapBody(body, g)
  {
    DistinctKeys();
    match MessagesOf(body)
    case Some(items) =>
      MessagesLaws(items, f, g);
      SetLaws(body, ArrayKey(body), Arr(MapMessages(items, f)), Arr(MapMessages(items, g)));
    case None =>
  }

  /** The body with every eligible string blanked out: everything compression may not touch. */
  function Outline(body: Json): Json {
    MapBody(body, Blank())
  }

  function Blank(): string -> string {
    text => ""
  }

  /** Compression as a whole, for every body and every filter: outside the eligible strings nothing changes,
      the eligible strings become their compressed forms in place, and the statistics account for them. */
  lemma CompressionExactly(body: Json, detect: string -> Option<Filter>)
    ensures var r, t := MapBody(body, Squeeze(detect)), Tally(NOTHING, EligibleTexts(body), detect);
      && Outline(r) == Outline(body)
      && EligibleTexts(r) == MapTexts(EligibleTexts(body), Squeeze(detect))
      && t.before == Bytes(EligibleTexts(body))
      && t.after == Bytes(EligibleTexts(r))
      && Balanced(t)
  {
    OutlineKept(body, Squeeze(detect));
    TallyAccounts(EligibleTexts(body), detect);
  }

  lemma OutlineKept(body: Json, f: string -> string)
    ensures Outline(MapBody(body, f)) == Outline(body)
    ensures EligibleTexts(MapBody(body, f)) == MapTexts(EligibleTexts(body), f)
  {
    BodyLaws(body, f, Blank());
  }
}
