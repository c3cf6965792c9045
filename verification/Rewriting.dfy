/** Which strings of a request body are compressed, said over the JSON itself: what each message, block and
    part becomes, and in which order its strings are counted. */
module Rewriting {
  import opened Types
  import opened Compressor

  predicate Says(v: Json, key: string, text: string) {
    v.Obj? && key in v.fields && v.fields[key] == Str(text)
  }

  /** An error trace. */
  predicate Flagged(v: Json) {
    v.Obj? && "is_error" in v.fields && v.fields["is_error"] == Bool(true)
  }

  predicate HasString(v: Json, key: string) {
    v.Obj? && key in v.fields && v.fields[key].Str?
  }

  /** Objects with the same keys that agree on all but these. */
  predicate SameBut(x: Json, y: Json, keys: set<string>) {
    && x.Obj? && y.Obj? && y.fields.Keys == x.fields.Keys
    && forall k :: k in x.fields && k !in keys ==> y.fields[k] == x.fields[k]
  }

  // ----- what becomes of what ---------------------------------------------------------------------------------

  predicate PartBecomes(x: Json, y: Json, kind: string, f: string -> string) {
    if Says(x, "type", kind) && HasString(x, "text") then
      SameBut(x, y, {"text"}) && y.fields["text"] == Str(f(x.fields["text"].text))
    else y == x
  }

  predicate ContentBecomes(x: Json, y: Json, kind: string, f: string -> string) {
    match x
    case Str(s) => y == Str(f(s))
    case Arr(parts) =>
      y.Arr? && |y.items| == |parts| && forall i :: 0 <= i < |parts| ==> PartBecomes(parts[i], y.items[i], kind, f)
    case _ => y == x
  }

  predicate FieldBecomes(x: Json, y: Json, key: string, kind: string, f: string -> string) {
    if x.Obj? && key in x.fields then SameBut(x, y, {key}) && ContentBecomes(x.fields[key], y.fields[key], kind, f)
    else y == x
  }

  predicate BlockBecomes(x: Json, y: Json, f: string -> string) {
    if Says(x, "type", "tool_result") && !Flagged(x) then FieldBecomes(x, y, "content", "text", f) else y == x
  }

  predicate BlocksBecome(x: Json, y: Json, f: string -> string) {
    if x.Arr? then
      y.Arr? && |y.items| == |x.items| && forall i :: 0 <= i < |x.items| ==> BlockBecomes(x.items[i], y.items[i], f)
    else y == x
  }

  predicate OutputBecomes(of: Json, x: Json, y: Json, f: string -> string) {
    if Says(of, "type", "function_call_output") then ContentBecomes(x, y, "input_text", f) else y == x
  }

  predicate MessageBecomes(x: Json, y: Json, f: string -> string) {
    if Says(x, "role", "tool") then FieldBecomes(x, y, "content", "text", f)
    else if x.Obj? then
      && SameBut(x, y, {"content", "output"})
      && ("content" in x.fields ==> BlocksBecome(x.fields["content"], y.fields["content"], f))
      && ("output" in x.fields ==> OutputBecomes(x, x.fields["output"], y.fields["output"], f))
    else y == x
  }

  /** The array of messages goes by this name. */
  function ListKey(body: Json): string {
    if body.Obj? && "messages" in body.fields then "messages" else "input"
  }

  predicate HasList(body: Json) {
    body.Obj? && ListKey(body) in body.fields && body.fields[ListKey(body)].Arr?
  }

  function ListOf(body: Json): seq<Json>
    requires HasList(body)
  {
    body.fields[ListKey(body)].items
  }

  predicate BodyBecomes(x: Json, y: Json, f: string -> string) {
    if HasList(x) then
      && SameBut(x, y, {ListKey(x)}) && y.fields[ListKey(x)].Arr? && |y.fields[ListKey(x)].items| == |ListOf(x)|
      && forall i :: 0 <= i < |ListOf(x)| ==> MessageBecomes(ListOf(x)[i], y.fields[ListKey(x)].items[i], f)
    else y == x
  }

  // ----- the rewriting does exactly that ------------------------------------------------------------------------

  lemma {:induction false} MapPartsAt(parts: seq<Json>, kind: string, f: string -> string, i: nat)
    requires i < |parts|
    ensures |MapParts(parts, kind, f)| == |parts| && MapParts(parts, kind, f)[i] == MapPart(parts[i], kind, f)
  {
    var front := parts[..|parts| - 1];
    if i < |front| {
      MapPartsAt(front, kind, f, i);
    } else if front != [] {
      MapPartsAt(front, kind, f, 0);
    }
  }

  lemma {:induction false} MapMessagesAt(items: seq<Json>, f: string -> string, i: nat)
    requires i < |items|
    ensures |MapMessages(items, f)| == |items| && MapMessages(items, f)[i] == MapMessage(items[i], f)
  {
    var front := items[..|items| - 1];
    if i < |front| {
      MapMessagesAt(front, f, i);
    } else if front != [] {
      MapMessagesAt(front, f, 0);
    }
  }

  lemma ContentIs(x: Json, kind: string, f: string -> string)
    ensures ContentBecomes(x, MapContent(x, kind, f), kind, f)
  {
    match x
    case Arr(parts) =>
      if parts != [] { MapPartsAt(parts, kind, f, 0); }
      forall i | 0 <= i < |parts| ensures PartBecomes(parts[i], MapParts(parts, kind, f)[i], kind, f) {
        MapPartsAt(parts, kind, f, i);
      }
    case _ =>
  }

  lemma FieldIs(x: Json, key: string, kind: string, f: string -> string)
    ensures FieldBecomes(x, MapField(x, key, kind, f), key, kind, f)
  {
    if Get(x, key).Some? { ContentIs(x.fields[key], kind, f); }
  }

  lemma BlockIs(x: Json, f: string -> string)
    ensures BlockBecomes(x, MapBlock(x, f), f)
  {
    FieldIs(x, "content", "text", f);
  }

  lemma BlocksAre(blocks: seq<Json>, f: string -> string)
    ensures BlocksBecome(Arr(blocks), Arr(MapBlocks(blocks, f)), f)
  {
    forall i | 0 <= i < |blocks| ensures BlockBecomes(blocks[i], MapBlocks(blocks, f)[i], f) {
      BlockIs(blocks[i], f);
    }
  }

  lemma MessageIs(x: Json, f: string -> string)
    ensures MessageBecomes(x, MapMessage(x, f), f)
  {
    DistinctKeys();
    if IsToolMessage(x) {
      FieldIs(x, "content", "text", f);
    } else if x.Obj? {
      var y := MapToolResults(x, f);
      OutputApart(x, f);
      if "content" in x.fields && x.fields["content"].Arr? { BlocksAre(x.fields["content"].items, f); }
      FieldIs(y, "output", "input_text", f);
    }
  }

  lemma BodyIs(x: Json, f: string -> string)
    ensures BodyBecomes(x, MapBody(x, f), f)
  {
    if HasList(x) {
      var items := ListOf(x);
      if items != [] { MapMessagesAt(items, f, 0); }
      forall i | 0 <= i < |items| ensures MessageBecomes(items[i], MapMessages(items, f)[i], f) {
        MapMessagesAt(items, f, i);
        MessageIs(items[i], f);
      }
    }
  }

  // ----- and nothing else can ------------------------------------------------------------------------------------

  lemma ContentOnly(x: Json, y: Json, z: Json, kind: string, f: string -> string)
    requires ContentBecomes(x, y, kind, f) && ContentBecomes(x, z, kind, f)
    ensures y == z
  {
    if x.Arr? {
      forall i | 0 <= i < |x.items| ensures y.items[i] == z.items[i] {
      }
    }
  }

  lemma FieldOnly(x: Json, y: Json, z: Json, key: string, kind: string, f: string -> string)
    requires FieldBecomes(x, y, key, kind, f) && FieldBecomes(x, z, key, kind, f)
    ensures y == z
  {
    if x.Obj? && key in x.fields {
      ContentOnly(x.fields[key], y.fields[key], z.fields[key], kind, f);
    }
  }

  lemma BlocksOnly(x: Json, y: Json, z: Json, f: string -> string)
    requires BlocksBecome(x, y, f) && BlocksBecome(x, z, f)
    ensures y == z
  {
    if x.Arr? {
      forall i | 0 <= i < |x.items| ensures y.items[i] == z.items[i] {
        assert BlockBecomes(x.items[i], y.items[i], f) && BlockBecomes(x.items[i], z.items[i], f);
        if Says(x.items[i], "type", "tool_result") && !Flagged(x.items[i]) {
          FieldOnly(x.items[i], y.items[i], z.items[i], "content", "text", f);
        }
      }
    }
  }

  lemma MessageOnly(x: Json, y: Json, z: Json, f: string -> string)
    requires MessageBecomes(x, y, f) && MessageBecomes(x, z, f)
    ensures y == z
  {
    if Says(x, "role", "tool") {
      FieldOnly(x, y, z, "content", "text", f);
    } else if x.Obj? {
      if "content" in x.fields { BlocksOnly(x.fields["content"], y.fields["content"], z.fields["content"], f); }
      if "output" in x.fields && Says(x, "type", "function_call_output") {
        ContentOnly(x.fields["output"], y.fields["output"], z.fields["output"], "input_text", f);
      }
    }
  }

  lemma BodyOnly(x: Json, y: Json, z: Json, f: string -> string)
    requires BodyBecomes(x, y, f) && BodyBecomes(x, z, f)
    ensures y == z
  {
    if HasList(x) {
      var ys, zs := y.fields[ListKey(x)].items, z.fields[ListKey(x)].items;
      forall i | 0 <= i < |ListOf(x)| ensures ys[i] == zs[i] { MessageOnly(ListOf(x)[i], ys[i], zs[i], f); }
      assert ys == zs;
    }
  }

  /** The body that compression returns is the one body that `BodyBecomes` describes. */
  lemma RewritingExactly(body: Json, r: Json, detect: string -> Option<Filter>)
    ensures r == MapBody(body, Squeeze(detect)) <==> BodyBecomes(body, r, Squeeze(detect))
  {
    BodyIs(body, Squeeze(detect));
    if BodyBecomes(body, r, Squeeze(detect)) { BodyOnly(body, r, MapBody(body, Squeeze(detect)), Squeeze(detect)); }
  }

  // ----- which strings are counted, and in which order -------------------------------------------------------------

  /** The lists of all elements, one after the other. */
  function Flat(xs: seq<Json>, g: Json -> seq<string>): seq<string> {
    if xs == [] then [] else g(xs[0]) + Flat(xs[1..], g)
  }

  lemma {:induction false} FlatJoin(xs: seq<Json>, ys: seq<Json>, g: Json -> seq<string>)
    ensures Flat(xs + ys, g) == Flat(xs, g) + Flat(ys, g)
  {
    if xs == [] {
      assert [] + ys == ys;
    } else {
      assert (xs + ys)[1..] == xs[1..] + ys;
      FlatJoin(xs[1..], ys, g);
    }
  }

  lemma FlatThree(a: seq<Json>, x: Json, b: seq<Json>, g: Json -> seq<string>)
    ensures Flat(a + [x] + b, g) == Flat(a, g) + g(x) + Flat(b, g)
  {
    FlatJoin(a + [x], b, g);
    FlatJoin(a, [x], g);
  }

  lemma SplitAt(xs: seq<Json>, i: nat)
    requires i < |xs|
    ensures xs == xs[..i] + [xs[i]] + xs[i + 1..]
  {
  }

  lemma FlatAround(xs: seq<Json>, i: nat, g: Json -> seq<string>)
    requires i < |xs|
    ensures Flat(xs, g) == Flat(xs[..i], g) + g(xs[i]) + Flat(xs[i + 1..], g)
    ensures Flat(xs[..i] + xs[i + 1..], g) == Flat(xs[..i], g) + Flat(xs[i + 1..], g)
  {
    SplitAt(xs, i);
    FlatThree(xs[..i], xs[i], xs[i + 1..], g);
    FlatJoin(xs[..i], xs[i + 1..], g);
  }

  function PartListed(x: Json, kind: string): seq<string> {
    if Says(x, "type", kind) && HasString(x, "text") then [x.fields["text"].text] else []
  }

  function PartsListed(xs: seq<Json>, kind: string): seq<string> {
    if xs == [] then [] else PartListed(xs[0], kind) + PartsListed(xs[1..], kind)
  }

  function ContentListed(x: Json, kind: string): seq<string> {
    if x.Str? then [x.text] else if x.Arr? then PartsListed(x.items, kind) else []
  }

  function FieldListed(x: Json, key: string, kind: string): seq<string> {
    if x.Obj? && key in x.fields then ContentListed(x.fields[key], kind) else []
  }

  function BlockListed(x: Json): seq<string> {
    if Says(x, "type", "tool_result") && !Flagged(x) then FieldListed(x, "content", "text") else []
  }

  function BlocksListed(xs: seq<Json>): seq<string> {
    Flat(xs, BlockListed)
  }

  function MessageListed(x: Json): seq<string> {
    if Says(x, "role", "tool") then FieldListed(x, "content", "text")
    else if x.Obj? then
      (if "content" in x.fields && x.fields["content"].Arr? then BlocksListed(x.fields["content"].items) else [])
      + (if Says(x, "type", "function_call_output") then FieldListed(x, "output", "input_text") else [])
    else []
  }

  function MessagesListed(xs: seq<Json>): seq<string> {
    Flat(xs, MessageListed)
  }

  function Listed(body: Json): seq<string> {
    if HasList(body) then MessagesListed(ListOf(body)) else []
  }

  lemma {:induction false} PartsListedJoin(xs: seq<Json>, ys: seq<Json>, kind: string)
    ensures PartsListed(xs + ys, kind) == PartsListed(xs, kind) + PartsListed(ys, kind)
  {
    if xs == [] {
      assert [] + ys == ys;
    } else {
      assert (xs + ys)[1..] == xs[1..] + ys;
      PartsListedJoin(xs[1..], ys, kind);
    }
  }

  lemma {:induction false} PartsTextsIs(xs: seq<Json>, kind: string)
    ensures PartsTexts(xs, kind) == PartsListed(xs, kind)
  {
    if xs != [] {
      var front, last := xs[..|xs| - 1], xs[|xs| - 1];
      PartsTextsIs(front, kind);
      PartsListedJoin(front, [last], kind);
      assert [last][1..] == [];
      assert xs == front + [last];
    }
  }

  lemma FieldTextsIs(x: Json, key: string, kind: string)
    ensures FieldTexts(x, key, kind) == FieldListed(x, key, kind)
  {
    if Get(x, key).Some? && x.fields[key].Arr? { PartsTextsIs(x.fields[key].items, kind); }
  }

  lemma {:induction false} BlocksTextsIs(xs: seq<Json>)
    ensures BlocksTexts(xs) == BlocksListed(xs)
  {
    if xs != [] {
      var front, last := xs[..|xs| - 1], xs[|xs| - 1];
      BlocksTextsIs(front);
      assert BlockTexts(last) == BlockListed(last) by { FieldTextsIs(last, "content", "text"); }
      FlatJoin(front, [last], BlockListed);
      assert xs == front + [last];
    }
  }

  lemma MessageTextsIs(x: Json)
    ensures MessageTexts(x) == MessageListed(x)
  {
    FieldTextsIs(x, "content", "text");
    FieldTextsIs(x, "output", "input_text");
    if x.Obj? && "content" in x.fields && x.fields["content"].Arr? { BlocksTextsIs(x.fields["content"].items); }
  }

  lemma {:induction false} MessagesTextsIs(xs: seq<Json>)
    ensures MessagesTexts(xs) == MessagesListed(xs)
  {
    if xs != [] {
      var front, last := xs[..|xs| - 1], xs[|xs| - 1];
      MessagesTextsIs(front);
      MessageTextsIs(last);
      FlatJoin(front, [last], MessageListed);
      assert xs == front + [last];
    }
  }

  /** The strings that the totals count are the ones `Listed` describes, in that order. */
  lemma ListingExactly(body: Json)
    ensures EligibleTexts(body) == Listed(body)
  {
    if HasList(body) { MessagesTextsIs(ListOf(body)); }
  }

  // ----- what is left alone ----------------------------------------------------------------------------------------

  /** The result of compressing a body. */
  function Result(body: Json, detect: string -> Option<Filter>): Json {
    MapBody(body, Squeeze(detect))
  }

  function WithList(body: Json, items: seq<Json>): Json
    requires HasList(body)
  {
    Obj(body.fields[ListKey(body) := Arr(items)])
  }

  lemma ResultAt(body: Json, detect: string -> Option<Filter>, i: nat)
    requires HasList(body) && i < |ListOf(body)|
    ensures HasList(Result(body, detect)) && |ListOf(Result(body, detect))| == |ListOf(body)|
    ensures MessageBecomes(ListOf(body)[i], ListOf(Result(body, detect))[i], Squeeze(detect))
  {
    BodyIs(body, Squeeze(detect));
  }

  lemma ListedAround(body: Json, items: seq<Json>, i: nat)
    requires HasList(body) && i < |items|
    ensures HasList(WithList(body, items)) && ListOf(WithList(body, items)) == items
    ensures EligibleTexts(WithList(body, items))
      == MessagesListed(items[..i]) + MessageListed(items[i]) + MessagesListed(items[i + 1..])
  {
    ListingExactly(WithList(body, items));
    MessagesListedAround(items, i);
  }

  lemma MessagesListedAround(items: seq<Json>, i: nat)
    requires i < |items|
    ensures MessagesListed(items)
      == MessagesListed(items[..i]) + MessageListed(items[i]) + MessagesListed(items[i + 1..])
  {
    FlatAround(items, i, MessageListed);
  }

  lemma ListedWithout(body: Json, items: seq<Json>, i: nat)
    requires HasList(body) && i < |items| && MessageListed(items[i]) == []
    ensures EligibleTexts(WithList(body, items)) == EligibleTexts(WithList(body, items[..i] + items[i + 1..]))
  {
    ListedAround(body, items, i);
    ListingExactly(WithList(body, items[..i] + items[i + 1..]));
    FlatAround(items, i, MessageListed);
    NothingBetween(MessagesListed(items[..i]), MessagesListed(items[i + 1..]));
  }

  lemma NothingBetween(a: seq<string>, b: seq<string>)
    ensures a + [] + b == a + b
  {
  }

  /** A block that is not a tool result, or is one that reports an error. */
  predicate LeftAlone(block: Json) {
    !Says(block, "type", "tool_result") || Flagged(block)
  }

  /** A message without tool role, tool result and function output comes back as it was, and counts for nothing. */
  lemma MessageLeftAlone(body: Json, i: nat, detect: string -> Option<Filter>)
    requires HasList(body) && i < |ListOf(body)|
    requires var msg := ListOf(body)[i];
      && !Says(msg, "role", "tool") && !Says(msg, "type", "function_call_output")
      && (msg.Obj? && "content" in msg.fields && msg.fields["content"].Arr? ==>
            forall j :: 0 <= j < |msg.fields["content"].items| ==> LeftAlone(msg.fields["content"].items[j]))
    ensures HasList(Result(body, detect)) && i < |ListOf(Result(body, detect))|
    ensures ListOf(Result(body, detect))[i] == ListOf(body)[i]
    ensures var items := ListOf(body);
      EligibleTexts(body) == EligibleTexts(WithList(body, items[..i] + items[i + 1..]))
  {
    var items, x := ListOf(body), ListOf(body)[i];
    ResultAt(body, detect, i);
    assert MessageBecomes(x, x, Squeeze(detect));
    MessageOnly(x, x, ListOf(Result(body, detect))[i], Squeeze(detect));
    if x.Obj? && "content" in x.fields && x.fields["content"].Arr? { AllLeftAlone(x.fields["content"].items); }
    assert WithList(body, items) == body;
    ListedWithout(body, items, i);
  }

  lemma {:induction false} AllLeftAlone(blocks: seq<Json>)
    requires forall j :: 0 <= j < |blocks| ==> LeftAlone(blocks[j])
    ensures BlocksListed(blocks) == []
  {
    if blocks != [] {
      assert LeftAlone(blocks[0]);
      assert forall j :: 0 <= j < |blocks| - 1 ==> blocks[1..][j] == blocks[j + 1];
      AllLeftAlone(blocks[1..]);
    }
  }

  /** The `i`-th message has an array of blocks. */
  predicate HasBlock(body: Json, i: nat, j: nat) {
    && HasList(body) && i < |ListOf(body)| && ListOf(body)[i].Obj? && !Says(ListOf(body)[i], "role", "tool")
    && "content" in ListOf(body)[i].fields && ListOf(body)[i].fields["content"].Arr?
    && j < |ListOf(body)[i].fields["content"].items|
  }

  function BlocksAt(body: Json, i: nat): seq<Json>
    requires HasBlock(body, i, 0)
  {
    ListOf(body)[i].fields["content"].items
  }

  lemma BlockAt(body: Json, i: nat, j: nat, detect: string -> Option<Filter>)
    requires HasBlock(body, i, j)
    ensures HasBlock(Result(body, detect), i, j)
    ensures BlockBecomes(BlocksAt(body, i)[j], BlocksAt(Result(body, detect), i)[j], Squeeze(detect))
  {
    ResultAt(body, detect, i);
    var x, y := ListOf(body)[i], ListOf(Result(body, detect))[i];
    assert SameBut(x, y, {"content", "output"}) && "content" in y.fields;
    assert "role" !in {"content", "output"} by { DistinctKeys(); }
  }

  /** An error trace, and any block that is not a tool result, comes back as it was, and counts for nothing. */
  lemma BlockLeftAlone(body: Json, i: nat, j: nat, detect: string -> Option<Filter>)
    requires HasBlock(body, i, j) && LeftAlone(BlocksAt(body, i)[j])
    ensures HasBlock(Result(body, detect), i, j)
    ensures BlocksAt(Result(body, detect), i)[j] == BlocksAt(body, i)[j]
    ensures var items, blocks := ListOf(body), BlocksAt(body, i);
      var fewer := Obj(items[i].fields["content" := Arr(blocks[..j] + blocks[j + 1..])]);
      EligibleTexts(body) == EligibleTexts(WithList(body, items[i := fewer]))
  {
    var items, blocks := ListOf(body), BlocksAt(body, i);
    var fewer := Obj(items[i].fields["content" := Arr(blocks[..j] + blocks[j + 1..])]);
    BlockAt(body, i, j, detect);
    BlocksListedWithout(blocks, j);
    SameListed(items[i], fewer, blocks, blocks[..j] + blocks[j + 1..]);
    assert WithList(body, items) == body;
    ListedAround(body, items, i);
    ListedAround(body, items[i := fewer], i);
  }

  lemma BlocksListedWithout(blocks: seq<Json>, j: nat)
    requires j < |blocks| && LeftAlone(blocks[j])
    ensures BlocksListed(blocks) == BlocksListed(blocks[..j] + blocks[j + 1..])
  {
    FlatAround(blocks, j, BlockListed);
    NothingBetween(BlocksListed(blocks[..j]), BlocksListed(blocks[j + 1..]));
  }

  lemma SameListed(x: Json, y: Json, blocks: seq<Json>, fewer: seq<Json>)
    requires x.Obj? && "content" in x.fields && x.fields["content"] == Arr(blocks) && !Says(x, "role", "tool")
    requires y == Obj(x.fields["content" := Arr(fewer)]) && BlocksListed(blocks) == BlocksListed(fewer)
    ensures MessageListed(x) == MessageListed(y)
  {
    DistinctKeys();
  }

  // ----- what is compressed ---------------------------------------------------------------------------------------

  /** The content of a tool message. */
  lemma ToolContentCompressed(body: Json, i: nat, detect: string -> Option<Filter>)
    requires HasList(body) && i < |ListOf(body)|
    requires Says(ListOf(body)[i], "role", "tool") && HasString(ListOf(body)[i], "content")
    ensures var x, s := ListOf(body)[i], ListOf(body)[i].fields["content"].text;
      && HasList(Result(body, detect)) && i < |ListOf(Result(body, detect))|
      && ListOf(Result(body, detect))[i] == Obj(x.fields["content" := Str(Compressed(s, detect))])
      && EligibleTexts(body) == MessagesListed(ListOf(body)[..i]) + [s] + MessagesListed(ListOf(body)[i + 1..])
  {
    var x := ListOf(body)[i];
    ResultAt(body, detect, i);
    assert WithList(body, ListOf(body)) == body;
    ListedAround(body, ListOf(body), i);
  }

  /** The content of a tool result that does not report an error. */
  lemma ToolResultCompressed(body: Json, i: nat, j: nat, detect: string -> Option<Filter>)
    requires HasBlock(body, i, j) && !LeftAlone(BlocksAt(body, i)[j]) && HasString(BlocksAt(body, i)[j], "content")
    ensures var x, s := BlocksAt(body, i)[j], BlocksAt(body, i)[j].fields["content"].text;
      && HasBlock(Result(body, detect), i, j)
      && BlocksAt(Result(body, detect), i)[j] == Obj(x.fields["content" := Str(Compressed(s, detect))])
  {
    var x := BlocksAt(body, i)[j];
    BlockAt(body, i, j, detect);
  }

  /** The output of a function call. */
  lemma OutputCompressed(body: Json, i: nat, detect: string -> Option<Filter>)
    requires HasList(body) && i < |ListOf(body)| && !Says(ListOf(body)[i], "role", "tool")
    requires Says(ListOf(body)[i], "type", "function_call_output") && HasString(ListOf(body)[i], "output")
    ensures var y, s := Result(body, detect), ListOf(body)[i].fields["output"].text;
      && HasList(y) && i < |ListOf(y)| && HasString(ListOf(y)[i], "output")
      && ListOf(y)[i].fields["output"] == Str(Compressed(s, detect))
  {
    ResultAt(body, detect, i);
  }
}
