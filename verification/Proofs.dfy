/** Delivery proofs: what a run has verifiably delivered, and how the proofs of several actions are
  * put together.
  */
module Proofs {
  import opened GoStrings

  datatype Message = TextMessage(content: string) | ImageMessage(content: string)

  datatype Skip = Skip(actionIndex: int, messageIndex: int)

  datatype Proof = Proof(
    tradeText: string, picList: seq<string>, messages: seq<Message>, expectedUnits: int,
    preparedUnits: int, unknownUnits: int, refillPending: bool, skips: seq<Skip>)

  const NO_PROOF := Proof("", [], [], 0, 0, 0, false, [])

  /** `appendTradeText`. */
  function AppendTradeText(current: string, next: string): string {
    var t := Trim(next);
    if t == [] then current else if current == [] then t else current + "\n" + t
  }

  /** The trimmed texts that are not blank. */
  function TradeLines(texts: seq<string>): (r: seq<string>)
    ensures forall i :: 0 <= i < |r| ==> r[i] != [] && Trimmed(r[i])
  {
    if texts == [] then [] else (if Blank(texts[0]) then [] else [Trim(texts[0])]) + TradeLines(texts[1..])
  }

  /** The trade text of some messages: their non-blank texts, trimmed and joined by line feeds. */
  function TradeText(messages: seq<Message>): string {
    Join(TradeLines(Texts(messages)))
  }

  function Texts(messages: seq<Message>): seq<string> {
    if messages == [] then []
    else (if messages[0].TextMessage? then [messages[0].content] else []) + Texts(messages[1..])
  }

  function Pictures(messages: seq<Message>): seq<string> {
    if messages == [] then []
    else (if messages[0].ImageMessage? then [messages[0].content] else []) + Pictures(messages[1..])
  }

  lemma TradeLinesOfFirst(text: string, rest: seq<string>)
    ensures TradeLines([text] + rest) == (if Blank(text) then [] else [Trim(text)]) + TradeLines(rest)
    ensures TradeLines([]) == []
  {
    hide Blank, Trim, Trimmed;
    assert ([text] + rest)[1..] == rest;
  }

  lemma {:induction false} TradeLinesOfParts(a: seq<string>, b: seq<string>)
    ensures TradeLines(a + b) == TradeLines(a) + TradeLines(b)
  {
    hide Blank, Trim, Trimmed, TradeLines;
    TradeLinesOfFirst("", []);
    if a == [] {
      assert a + b == b;
    } else {
      TradeLinesOfParts(a[1..], b);
      TradeLinesOfFirst(a[0], a[1..]);
      TradeLinesOfFirst(a[0], a[1..] + b);
      assert a + b == [a[0]] + (a[1..] + b) && a == [a[0]] + a[1..];
    }
  }

  lemma TextsOfFirst(m: Message, rest: seq<Message>)
    ensures Texts([m] + rest) == (if m.TextMessage? then [m.content] else []) + Texts(rest)
    ensures Pictures([m] + rest) == (if m.ImageMessage? then [m.content] else []) + Pictures(rest)
  {
    assert ([m] + rest)[1..] == rest;
  }

  lemma TextsOfNone()
    ensures Texts([]) == [] && Pictures([]) == []
  {}

  lemma {:induction false} PartsOf(a: seq<Message>, b: seq<Message>)
    ensures Texts(a + b) == Texts(a) + Texts(b) && Pictures(a + b) == Pictures(a) + Pictures(b)
  {
    hide Texts, Pictures;
    TextsOfNone();
    if a == [] {
      assert a + b == b;
    } else {
      PartsOf(a[1..], b);
      TextsOfFirst(a[0], a[1..]);
      TextsOfFirst(a[0], a[1..] + b);
      assert a + b == [a[0]] + (a[1..] + b) && a == [a[0]] + a[1..];
    }
  }

  /** Appending one text after another builds exactly the trade text of all of them. */
  lemma AppendBuildsTradeText(messages: seq<Message>, text: string)
    ensures AppendTradeText(TradeText(messages), text) == TradeText(messages + [TextMessage(text)])
  {
    var lines := TradeLines(Texts(messages));
    PartsOf(messages, [TextMessage(text)]);
    assert Texts([TextMessage(text)]) == [text];
    TradeLinesOfParts(Texts(messages), [text]);
    assert TradeLines([text]) == if Blank(text) then [] else [Trim(text)];
    JoinedLines(lines, TradeLines([text]));
  }

  lemma {:induction false} JoinedLines(a: seq<string>, b: seq<string>)
    requires forall i :: 0 <= i < |a| ==> a[i] != [] && Trimmed(a[i])
    requires forall i :: 0 <= i < |b| ==> b[i] != [] && Trimmed(b[i])
    ensures AppendTradeText(Join(a), Join(b)) == Join(a + b)
  {
    if b == [] {
      assert a + b == a;
    } else {
      JoinIsTrimmed(b);
      TrimOfTrimmed(Join(b));
      if a == [] {
        assert a + b == b;
      } else {
        JoinIsTrimmed(a);
        JoinOfParts(a, b);
      }
    }
  }

  // ---- combining the proofs of several actions ----

  /** `mergeShipmentDeliveryProof`. */
  function Merge(current: Proof, next: Proof): Proof {
    Proof(
      AppendTradeText(current.tradeText, next.tradeText),
      current.picList + next.picList,
      current.messages + next.messages,
      if next.expectedUnits > 0 then current.expectedUnits + next.expectedUnits else current.expectedUnits,
      current.preparedUnits + next.preparedUnits,
      current.unknownUnits + next.unknownUnits,
      current.refillPending || next.refillPending,
      current.skips + next.skips)
  }

  /** A proof whose texts and pictures are those of its messages. */
  predicate Coherent(p: Proof) {
    p.tradeText == TradeText(p.messages) && p.picList == Pictures(p.messages)
  }

  /** Merging keeps texts and pictures in step with the messages. */
  lemma MergeKeepsCoherence(a: Proof, b: Proof)
    requires Coherent(a) && Coherent(b)
    ensures Coherent(Merge(a, b))
  {
    PartsOf(a.messages, b.messages);
    TradeLinesOfParts(Texts(a.messages), Texts(b.messages));
    JoinedLines(TradeLines(Texts(a.messages)), TradeLines(Texts(b.messages)));
  }

  /** What a proof accounts for: its prepared, unknown and skipped units. */
  function Accounted(p: Proof): int {
    p.preparedUnits + p.unknownUnits + |p.skips|
  }

  /** Merging loses nothing: the messages, pictures and skips of the first proof come first, those of the second
    * follow, the accounted and the positive expected units add up, and a mark in either stands.
    */
  lemma MergeLosesNothing(a: Proof, b: Proof)
    ensures var m := Merge(a, b);
            && a.messages <= m.messages && m.messages[|a.messages|..] == b.messages
            && a.picList <= m.picList && m.picList[|a.picList|..] == b.picList
            && a.skips <= m.skips && m.skips[|a.skips|..] == b.skips
            && Accounted(m) == Accounted(a) + Accounted(b) && m.unknownUnits - a.unknownUnits == b.unknownUnits
            && m.expectedUnits - a.expectedUnits == (if b.expectedUnits < 0 then 0 else b.expectedUnits)
            && (m.refillPending <==> a.refillPending || b.refillPending)
  {
    hide AppendTradeText;
  }

  /** Coherent proofs can be merged in any grouping, unless the middle one expects a negative number of
    * units, which a merge as second proof ignores and a merge as first proof counts.
    */
  lemma MergeIsAssociative(a: Proof, b: Proof, c: Proof)
    requires Coherent(a) && Coherent(b) && Coherent(c)
    ensures Merge(Merge(a, b), c) == Merge(a, Merge(b, c)) <==> b.expectedUnits >= 0 || c.expectedUnits <= 0
  {
    hide AppendTradeText, TradeText, Pictures;
    MergeKeepsCoherence(a, b);
    MergeKeepsCoherence(b, c);
    MergeKeepsCoherence(Merge(a, b), c);
    MergeKeepsCoherence(a, Merge(b, c));
    assert (a.messages + b.messages) + c.messages == a.messages + (b.messages + c.messages);
    assert (a.skips + b.skips) + c.skips == a.skips + (b.skips + c.skips);
  }
}
