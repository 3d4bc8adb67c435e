/** Any number of stock senders on one card, interleaved with each other and with edits of the card. */
module StockLedger {
  import opened Options
  import opened GoStrings
  import opened CardStock
  import opened CardDelivery
  import Proofs

  /** `records[w]` is what sender `w` has done so far; `added` and `removed` are the cards that edits of the
    * column brought and took away, the initial content counting as added. `lost` are the cards taken by
    * an update whose sender could not tell, `reappeared` and `doubled` those put back by such an update:
    * the last one of a restore that failed, or one that the restore repeated.
    */
  datatype World = World(
    content: string, records: seq<seq<Call>>, added: multiset<string>, removed: multiset<string>,
    lost: multiset<string>, reappeared: multiset<string>, doubled: multiset<string>)

  /** A call of a sender, another connection's write, and the unnoticed updates of takes and restores. */
  datatype Action = Act(sender: nat, call: Call) | Edit(content: string) | Slip(card: string) | Echo(sender: nat, card: string)

  /** The cards of some lines, without the white space around them. */
  function Bag(lines: seq<string>): multiset<string> {
    if lines == [] then multiset{} else multiset{Trim(lines[0])} + Bag(lines[1..])
  }

  function Stock(content: string): multiset<string> {
    Bag(Lines(content))
  }

  ghost predicate Initial(w: World) {
    && (forall i :: 0 <= i < |w.records| ==> w.records[i] == [])
    && w.added == Stock(w.content) && w.removed == w.lost == w.reappeared == w.doubled == multiset{}
  }

  /** How one call changes the column: takes and restores end with the row's writes, and a failed restore
    * may have written all the same; `back` is the card that it put back.
    */
  ghost predicate Writes(before: string, after: string, c: Call, back: multiset<string>) {
    match c
    case Take(Some(line)) => Follows(before, Version(after, Taker(line))) && back == multiset{}
    case PutBack(line, true) => Follows(before, Version(after, Putter(line))) && back == multiset{}
    case PutBack(line, false) =>
      || (after == before && back == multiset{})
      || (Follows(before, Version(after, Putter(line))) && back == multiset{Trim(line)})
    case _ => after == before && back == multiset{}
  }

  ghost predicate Step(a: World, action: Action, b: World, render: string -> string) {
    match action
    case Act(w, c) =>
      && w < |a.records| && Proper(a.records[w] + [c], render)
      && exists back :: Writes(a.content, b.content, c, back)
           && b == a.(content := b.content, records := a.records[w := a.records[w] + [c]], reappeared := a.reappeared + back)
    case Edit(content) =>
      b == a.(content := content, added := a.added + (Stock(content) - Stock(a.content)),
              removed := a.removed + (Stock(a.content) - Stock(content)))
    case Slip(card) =>
      && Follows(a.content, Version(b.content, Taker(card)))
      && b == a.(content := b.content, lost := a.lost + multiset{Trim(card)})
    case Echo(w, card) =>
      && w < |a.records| && BookOf(a.records[w]).held == [card]
      && Follows(a.content, Version(b.content, Putter(card)))
      && b == a.(content := b.content, doubled := a.doubled + multiset{Trim(card)})
  }

  // ---- conservation ----

  /** The cards a sender holds or has sent, for certain or perhaps. */
  function Active(b: Book): multiset<string> {
    Bag(b.held) + Bag(b.delivered) + Bag(b.unknown)
  }

  /** The cards a sender could not put back. */
  function Stranded(b: Book): multiset<string> {
    Bag(b.stranded)
  }

  function Sum(records: seq<seq<Call>>, of: Book -> multiset<string>): multiset<string> {
    if records == [] then multiset{}
    else Sum(records[..|records| - 1], of) + of(BookOf(records[|records| - 1]))
  }

  /** Every card is in exactly one place: the column, one sender's hands, delivered, unknown, stranded, lost
    * by an unnoticed take, or taken away by an edit; beyond that there are only copies put back unnoticed,
    * and those of failed restores are copies of stranded cards.
    */
  ghost predicate Conserved(w: World, render: string -> string) {
    && Stock(w.content) + Sum(w.records, Active) + Sum(w.records, Stranded) + w.lost + w.removed
       == w.added + w.reappeared + w.doubled
    && w.reappeared <= Sum(w.records, Stranded)
    && forall i :: 0 <= i < |w.records| ==> SenderOk(w.records[i], render)
  }

  ghost predicate SenderOk(record: seq<Call>, render: string -> string) {
    Proper(record, render) && forall i :: 0 <= i < |BookOf(record).held| ==> OneLine(BookOf(record).held[i])
  }

  lemma {:induction false} BagOfParts(a: seq<string>, b: seq<string>)
    ensures Bag(a + b) == Bag(a) + Bag(b)
  {
    hide Bag, Trim;
    EmptyBag();
    if a == [] {
      assert a + b == b;
    } else {
      BagOfParts(a[1..], b);
      BagOfFirst(a[0], a[1..] + b);
      BagOfFirst(a[0], a[1..]);
      assert a + b == [a[0]] + (a[1..] + b) && a == [a[0]] + a[1..];
    }
  }

  lemma AddBoth(a: multiset<string>, x: multiset<string>, b: multiset<string>, y: multiset<string>, z: multiset<string>)
    requires a + x == b + y
    ensures a + z + x == b + z + y
  {
    forall e: string ensures (a + z + x)[e] == (b + z + y)[e] {
      assert (a + x)[e] == (b + y)[e];
    }
  }

  lemma {:induction false} SumAfterUpdate(records: seq<seq<Call>>, w: nat, record: seq<Call>, of: Book -> multiset<string>)
    requires w < |records|
    ensures Sum(records[w := record], of) + of(BookOf(records[w])) == Sum(records, of) + of(BookOf(record))
  {
    hide BookOf;
    var n := |records| - 1;
    if w == n {
      assert records[w := record][..n] == records[..n];
    } else {
      assert records[w := record][..n] == records[..n][w := record] && records[w := record][n] == records[n];
      SumAfterUpdate(records[..n], w, record, of);
      assert records[..n][w] == records[w];
      AddBoth(Sum(records[..n][w := record], of), of(BookOf(records[w])),
              Sum(records[..n], of), of(BookOf(record)), of(BookOf(records[n])));
    }
  }

  lemma BagOfFirst(line: string, rest: seq<string>)
    ensures Bag([line] + rest) == multiset{Trim(line)} + Bag(rest) && Bag([line]) == multiset{Trim(line)}
  {
    hide Trim;
    assert ([line] + rest)[1..] == rest && [line][1..] == [];
  }

  lemma EmptyBag()
    ensures Bag([]) == multiset{}
  {}

  /** What a take or a put does to the stock. */
  lemma WriteMoves(before: string, after: string, line: string)
    requires OneLine(line)
    ensures Follows(before, Version(after, Taker(line))) ==> Stock(before) == multiset{Trim(line)} + Stock(after)
    ensures Follows(before, Version(after, Putter(line))) ==> Stock(after) == multiset{Trim(line)} + Stock(before)
  {
    TrimOfTrimmed(Trim(line));
    hide Lines, Trim, Trimmed;
    BagOfFirst(line, Lines(after));
    BagOfFirst(Trim(line), Lines(before));
  }

  predicate BookMoves(b: Book, b': Book, c: Call) {
    match c
    case Take(Some(line)) => Active(b') == Active(b) + multiset{Trim(line)} && Stranded(b') == Stranded(b)
    case PutBack(line, ok) =>
      && OneLine(line) && Active(b') + multiset{Trim(line)} == Active(b)
      && Stranded(b') == if ok then Stranded(b) else Stranded(b) + multiset{Trim(line)}
    case _ => Active(b') == Active(b) && Stranded(b') == Stranded(b)
  }

  lemma SameBooks(b: Book, c: Book)
    requires b.held == c.held && b.delivered == c.delivered && b.unknown == c.unknown && b.stranded == c.stranded
    ensures Active(b) == Active(c) && Stranded(b) == Stranded(c)
  {}

  lemma EnterTake(b: Book, line: string)
    requires !Blank(line)
    ensures var b' := Enter(b, Take(Some(line))); Active(b') == Active(b) + multiset{Trim(line)} && Stranded(b') == Stranded(b)
  {
    hide Trim, Blank, Bag;
    BagOfParts(b.held, [line]);
    BagOfFirst(line, []);
  }

  lemma EnterPutBack(b: Book, line: string, ok: bool)
    requires b.held == [line]
    ensures var b' := Enter(b, PutBack(line, ok));
            && Active(b') + multiset{Trim(line)} == Active(b)
            && Stranded(b') == if ok then Stranded(b) else Stranded(b) + multiset{Trim(line)}
  {
    hide Trim, Bag;
    EmptyBag();
    BagOfFirst(line, []);
    BagOfParts(b.stranded, b.held);
  }

  lemma EnterDeliver(b: Book, message: Proofs.Message, sending: Sending)
    ensures var b' := Enter(b, Deliver(message, sending)); Active(b') == Active(b) && Stranded(b') == Stranded(b)
  {
    hide Bag;
    EmptyBag();
    BagOfParts(b.delivered, b.held);
    BagOfParts(b.unknown, b.held);
  }

  /** What one call does to a book. */
  lemma EnterMoves(b: Book, c: Call)
    requires forall i :: 0 <= i < |b.held| ==> OneLine(b.held[i])
    requires c.Take? && c.taken.Some? ==> !Blank(c.taken.value) && OneLine(c.taken.value)
    requires c.PutBack? ==> b.held == [c.line]
    ensures forall i :: 0 <= i < |Enter(b, c).held| ==> OneLine(Enter(b, c).held[i])
    ensures BookMoves(b, Enter(b, c), c)
  {
    hide Trim, Blank, Bag, OneLine, Active, Stranded;
    match c
    case Take(Some(line)) => EnterTake(b, line);
    case PutBack(line, ok) =>
      assert OneLine(b.held[0]);
      EnterPutBack(b, line, ok);
    case Deliver(message, sending) => EnterDeliver(b, message, sending);
    case _ => assert Active(Enter(b, c)) == Active(b) && Stranded(Enter(b, c)) == Stranded(b) by { SameBooks(b, Enter(b, c)); }
  }

  /** What one call does to its sender's book. */
  lemma CallMovesBook(record: seq<Call>, c: Call, render: string -> string)
    requires SenderOk(record, render) && Proper(record + [c], render)
    requires c.Take? && c.taken.Some? ==> !Blank(c.taken.value) && OneLine(c.taken.value)
    ensures SenderOk(record + [c], render)
    ensures BookMoves(BookOf(record), BookOf(record + [c]), c)
  {
    hide Proper, Blank, BookOf, OneLine, BookMoves, Enter, Confirmed, Doubted, Fetched, Contents, Claimed;
    Snoc(record, c);
    EnterMoves(BookOf(record), c);
  }

  /** What one call moves between the column and its sender. */
  lemma CallMovesCards(record: seq<Call>, c: Call, before: string, after: string, back: multiset<string>, render: string -> string)
    requires SenderOk(record, render) && Proper(record + [c], render) && Writes(before, after, c, back)
    ensures var b, b' := BookOf(record), BookOf(record + [c]);
            && Stock(after) + Active(b') + Stranded(b') == Stock(before) + Active(b) + Stranded(b) + back
            && Stranded(b) + back <= Stranded(b')
    ensures SenderOk(record + [c], render)
  {
    hide Proper, Trim, Blank, BookOf, Bag, Active, Stranded, SenderOk, Lines, Stock;
    match c
    case Take(Some(line)) =>
      TakenIsLine(before, after, line);
      CallMovesBook(record, c, render);
      WriteMoves(before, after, line);
    case PutBack(line, ok) =>
      CallMovesBook(record, c, render);
      WriteMoves(before, after, line);
    case _ => CallMovesBook(record, c, render);
  }

  lemma TakenIsLine(before: string, after: string, line: string)
    requires Follows(before, Version(after, Taker(line)))
    ensures !Blank(line) && OneLine(line)
  {
    assert Lines(before)[0] == line;
  }

  /** Adding up what one call moves. */
  lemma MovedIsConserved(s: multiset<string>, active: multiset<string>, stranded: multiset<string>,
                         lost: multiset<string>, removed: multiset<string>,
                         added: multiset<string>, back: multiset<string>, doubled: multiset<string>,
                         s': multiset<string>, active': multiset<string>, stranded': multiset<string>,
                         a: multiset<string>, d: multiset<string>, a': multiset<string>, d': multiset<string>,
                         newBack: multiset<string>)
    requires s + active + stranded + lost + removed == added + back + doubled && back <= stranded
    requires active' + a == active + a' && stranded' + d == stranded + d'
    requires s' + a' + d' == s + a + d + newBack && d + newBack <= d'
    ensures s' + active' + stranded' + lost + removed == added + (back + newBack) + doubled
    ensures back + newBack <= stranded'
  {
    forall x: string
      ensures (s' + active' + stranded' + lost + removed)[x] == (added + (back + newBack) + doubled)[x]
      ensures (back + newBack)[x] <= stranded'[x]
    {
      assert (s + active + stranded + lost + removed)[x] == (added + back + doubled)[x] && back[x] <= stranded[x];
      assert (active' + a)[x] == (active + a')[x] && (stranded' + d)[x] == (stranded + d')[x];
      assert (s' + a' + d')[x] == (s + a + d + newBack)[x] && (d + newBack)[x] <= d'[x];
    }
  }

  lemma StepConserves(a: World, action: Action, b: World, render: string -> string)
    requires Conserved(a, render) && Step(a, action, b, render)
    ensures Conserved(b, render)
  {
    hide Proper, Stock, BookOf, Active, Stranded, SenderOk, Writes, Sum, Follows, Trim;
    match action
    case Act(w, c) => CallConserves(a, w, c, b, render);
    case Edit(content) =>
      EditIsConserved(Stock(a.content), Sum(a.records, Active), Sum(a.records, Stranded), a.lost, a.removed,
                      a.added, a.reappeared, a.doubled, Stock(b.content));
    case Slip(card) =>
      TakenIsLine(a.content, b.content, card);
      WriteMoves(a.content, b.content, card);
      SlipIsConserved(multiset{Trim(card)}, Stock(a.content), Sum(a.records, Active), Sum(a.records, Stranded), a.lost, a.removed,
                      a.added + a.reappeared + a.doubled, Stock(b.content));
    case Echo(w, card) =>
      HeldIsLine(a.records[w], card, render);
      WriteMoves(a.content, b.content, card);
      EchoIsConserved(multiset{Trim(card)}, Stock(a.content), Sum(a.records, Active), Sum(a.records, Stranded), a.lost, a.removed,
                      a.added, a.reappeared, a.doubled, Stock(b.content));
  }

  lemma HeldIsLine(record: seq<Call>, card: string, render: string -> string)
    requires SenderOk(record, render) && BookOf(record).held == [card]
    ensures OneLine(card)
  {
    assert BookOf(record).held[0] == card;
  }

  lemma CallConserves(a: World, w: nat, c: Call, b: World, render: string -> string)
    requires Conserved(a, render) && Step(a, Act(w, c), b, render)
    ensures Conserved(b, render)
  {
    hide Proper, Stock, BookOf, Active, Stranded, SenderOk, Writes, Sum;
    var back :| Writes(a.content, b.content, c, back)
      && b == a.(content := b.content, records := a.records[w := a.records[w] + [c]], reappeared := a.reappeared + back);
    var before, after := BookOf(a.records[w]), BookOf(b.records[w]);
    assert b.records[w] == a.records[w] + [c];
    CallMovesCards(a.records[w], c, a.content, b.content, back, render);
    SumAfterUpdate(a.records, w, b.records[w], Active);
    SumAfterUpdate(a.records, w, b.records[w], Stranded);
    MovedIsConserved(
      Stock(a.content), Sum(a.records, Active), Sum(a.records, Stranded), a.lost, a.removed, a.added, a.reappeared, a.doubled,
      Stock(b.content), Sum(b.records, Active), Sum(b.records, Stranded),
      Active(before), Stranded(before), Active(after), Stranded(after), back);
  }

  lemma SlipIsConserved(card: multiset<string>, s: multiset<string>, active: multiset<string>, stranded: multiset<string>,
                        lost: multiset<string>, removed: multiset<string>, all: multiset<string>, s': multiset<string>)
    requires s + active + stranded + lost + removed == all && s == card + s'
    ensures s' + active + stranded + (lost + card) + removed == all
  {}

  lemma EchoIsConserved(card: multiset<string>, s: multiset<string>, active: multiset<string>, stranded: multiset<string>,
                        lost: multiset<string>, removed: multiset<string>, added: multiset<string>, back: multiset<string>,
                        doubled: multiset<string>, s': multiset<string>)
    requires s + active + stranded + lost + removed == added + back + doubled && s' == card + s
    ensures s' + active + stranded + lost + removed == added + back + (doubled + card)
  {
    forall x: string
      ensures (s' + active + stranded + lost + removed)[x] == (added + back + (doubled + card))[x]
    {
      assert (s + active + stranded + lost + removed)[x] == (added + back + doubled)[x];
    }
  }

  lemma EditIsConserved(s: multiset<string>, active: multiset<string>, stranded: multiset<string>, lost: multiset<string>,
                        removed: multiset<string>, added: multiset<string>, back: multiset<string>, doubled: multiset<string>,
                        s': multiset<string>)
    requires s + active + stranded + lost + removed == added + back + doubled
    ensures s' + active + stranded + lost + (removed + (s - s')) == (added + (s' - s)) + back + doubled
  {
    forall x: string
      ensures (s' + active + stranded + lost + (removed + (s - s')))[x] == ((added + (s' - s)) + back + doubled)[x]
    {
      assert (s + active + stranded + lost + removed)[x] == (added + back + doubled)[x];
    }
  }

  lemma {:induction false} NothingOwned(records: seq<seq<Call>>)
    requires forall i :: 0 <= i < |records| ==> records[i] == []
    ensures Sum(records, Active) == Sum(records, Stranded) == multiset{}
  {
    if records != [] {
      NothingOwned(records[..|records| - 1]);
    }
  }

  ghost predicate Steps(worlds: seq<World>, actions: seq<Action>, render: string -> string) {
    && |worlds| == |actions| + 1
    && forall i :: 0 <= i < |actions| ==> Step(worlds[i], actions[i], worlds[i + 1], render)
  }

  ghost predicate Run(worlds: seq<World>, actions: seq<Action>, render: string -> string) {
    Steps(worlds, actions, render) && Initial(worlds[0])
  }

  /** Conservation at every moment of every run. */
  lemma {:induction false} RunConserves(worlds: seq<World>, actions: seq<Action>, render: string -> string, i: nat)
    requires Run(worlds, actions, render) && i < |worlds|
    ensures Conserved(worlds[i], render)
  {
    hide Step, SenderOk;
    if i == 0 {
      NothingOwned(worlds[0].records);
      NewSenderOk(render);
    } else {
      RunConserves(worlds, actions, render, i - 1);
      StepConserves(worlds[i - 1], actions[i - 1], worlds[i], render);
    }
  }

  lemma NewSenderOk(render: string -> string)
    ensures SenderOk([], render)
  {}

  lemma {:induction false} TwoOwners(records: seq<seq<Call>>, i: nat, j: nat, line: string, of: Book -> multiset<string>)
    requires i < j < |records|
    ensures of(BookOf(records[i]))[line] + of(BookOf(records[j]))[line] <= Sum(records, of)[line]
  {
    hide BookOf;
    var n := |records| - 1;
    if j == n {
      OneOwner(records[..n], i, line, of);
    } else {
      TwoOwners(records[..n], i, j, line, of);
    }
  }

  lemma {:induction false} OneOwner(records: seq<seq<Call>>, i: nat, line: string, of: Book -> multiset<string>)
    requires i < |records|
    ensures of(BookOf(records[i]))[line] <= Sum(records, of)[line]
  {
    hide BookOf;
    var n := |records| - 1;
    if i < n {
      OneOwner(records[..n], i, line, of);
    }
  }

  /** How many copies of a card there are by what came and went: those that edits brought or restores doubled,
    * without those that edits took away or takes lost.
    */
  function Around(w: World, card: string): int {
    (w.added[card] + w.doubled[card]) as int - w.removed[card] as int - w.lost[card] as int
  }

  /** The copies of a card in the column, with senders, delivered, unknown, or stranded and not back in the
    * column are as many as came and did not go: no copy is anywhere twice.
    */
  lemma EveryCopyIsOnce(worlds: seq<World>, actions: seq<Action>, render: string -> string, i: nat, card: string)
    requires Run(worlds, actions, render) && i < |worlds|
    ensures var w := worlds[i];
            && Stock(w.content)[card] + Sum(w.records, Active)[card] + Sum(w.records, Stranded)[card] == Around(w, card) + w.reappeared[card]
            && w.reappeared[card] <= Sum(w.records, Stranded)[card]
  {
    hide BookOf, Stock, Active, Stranded, Sum, Run;
    RunConserves(worlds, actions, render, i);
    var w := worlds[i];
    assert (Stock(w.content) + Sum(w.records, Active) + Sum(w.records, Stranded) + w.lost + w.removed)[card]
        == (w.added + w.reappeared + w.doubled)[card];
    assert w.reappeared[card] <= Sum(w.records, Stranded)[card];
  }

  /** A card of which at most one copy came and did not go is held, delivered or unknown at most once, over
    * all senders, and then it is not in the column any more; unless it reappeared unnoticed, the same
    * holds of stranded.
    */
  lemma NoDoubleDelivery(worlds: seq<World>, actions: seq<Action>, render: string -> string, i: nat, line: string)
    requires Run(worlds, actions, render) && i < |worlds| && Around(worlds[i], line) <= 1
    ensures forall p, q :: 0 <= p < q < |worlds[i].records| ==>
              Active(BookOf(worlds[i].records[p]))[line] + Active(BookOf(worlds[i].records[q]))[line] <= 1
    ensures forall p :: 0 <= p < |worlds[i].records| ==>
              Active(BookOf(worlds[i].records[p]))[line] + Stock(worlds[i].content)[line] <= 1
    ensures worlds[i].reappeared[line] == 0 ==>
              forall p, q :: 0 <= p < |worlds[i].records| && 0 <= q < |worlds[i].records| ==>
                Active(BookOf(worlds[i].records[p]))[line] + Stranded(BookOf(worlds[i].records[q]))[line]
                + Stock(worlds[i].content)[line] <= 1
  {
    hide BookOf, Stock, Active, Stranded, Sum, Run;
    EveryCopyIsOnce(worlds, actions, render, i, line);
    var w := worlds[i];
    forall p, q | 0 <= p < q < |w.records|
      ensures Active(BookOf(w.records[p]))[line] + Active(BookOf(w.records[q]))[line] <= 1
    {
      TwoOwners(w.records, p, q, line, Active);
    }
    forall p | 0 <= p < |w.records|
      ensures Active(BookOf(w.records[p]))[line] <= Sum(w.records, Active)[line]
      ensures Stranded(BookOf(w.records[p]))[line] <= Sum(w.records, Stranded)[line]
    {
      OneOwner(w.records, p, line, Active);
      OneOwner(w.records, p, line, Stranded);
    }
  }

  // ---- the row's calls as steps ----

  /** The cards that takes among these writes removed. */
  function TakenBy(own: seq<Writer>): multiset<string> {
    if own == [] then multiset{}
    else
      var last := own[|own| - 1];
      TakenBy(own[..|own| - 1]) + if last.Taker? then multiset{Trim(last.line)} else multiset{}
  }

  /** The cards that restores among these writes put back. */
  function PutBy(own: seq<Writer>): multiset<string> {
    if own == [] then multiset{}
    else
      var last := own[|own| - 1];
      PutBy(own[..|own| - 1]) + if last.Putter? then multiset{Trim(last.line)} else multiset{}
  }

  /** What sender `w` writes unnoticed, interleaved with writes of other connections, as steps of the ledger;
    * what it puts back is what it holds.
    */
  lemma {:induction false} WritesAreSteps(before: seq<Version>, after: seq<Version>, a: World, w: nat, render: string -> string)
    returns (worlds: seq<World>, actions: seq<Action>)
    requires before != [] && before <= after && Consistent(after) && w < |a.records|
    requires a.content == before[|before| - 1].content
    requires forall line :: Putter(line) in OwnSince(before, after) ==> BookOf(a.records[w]).held == [line]
    ensures Steps(worlds, actions, render) && worlds[0] == a
    ensures var b := worlds[|actions|];
            && b.content == after[|after| - 1].content && b.records == a.records && b.reappeared == a.reappeared
            && b.lost == a.lost + TakenBy(OwnSince(before, after))
            && b.doubled == a.doubled + PutBy(OwnSince(before, after))
    decreases |after|
  {
    hide BookOf, Follows, Stock, Step;
    var n := |after| - 1;
    if |after| == |before| {
      assert after == before;
      NothingSince(before);
      worlds, actions := [a], [];
    } else {
      assert before <= after[..n];
      LastSince(before, after);
      worlds, actions := WritesAreSteps(before, after[..n], a, w, render);
      var b := worlds[|actions|];
      var action, c := StepOfWrite(b, w, after[n], render);
      SnocStep(worlds, actions, action, c, render);
      worlds, actions := worlds + [c], actions + [action];
    }
  }

  lemma LastSince(before: seq<Version>, after: seq<Version>)
    requires before < after
    ensures var n := |after| - 1;
            && OwnSince(before, after) == OwnSince(before, after[..n]) + (if after[n].writer.Other? then [] else [after[n].writer])
            && TakenBy(OwnSince(before, after)) == TakenBy(OwnSince(before, after[..n]))
               + (if after[n].writer.Taker? then multiset{Trim(after[n].writer.line)} else multiset{})
            && PutBy(OwnSince(before, after)) == PutBy(OwnSince(before, after[..n]))
               + (if after[n].writer.Putter? then multiset{Trim(after[n].writer.line)} else multiset{})
  {
    hide Trim;
    var n := |after| - 1;
    assert after == after[..n] + [after[n]];
    SinceGrows(before, after[..n], after);
    SinceOneMore(after[..n], after[n]);
    var own := OwnSince(before, after);
    var earlier := OwnSince(before, after[..n]);
    assert if after[n].writer.Other? then own == earlier else own[..|own| - 1] == earlier;
  }

  lemma SnocStep(worlds: seq<World>, actions: seq<Action>, action: Action, b: World, render: string -> string)
    requires Steps(worlds, actions, render) && Step(worlds[|actions|], action, b, render)
    ensures Steps(worlds + [b], actions + [action], render)
  {
    hide Step;
  }

  lemma StepOfWrite(a: World, w: nat, v: Version, render: string -> string) returns (action: Action, b: World)
    requires Follows(a.content, v) && w < |a.records|
    requires v.writer.Putter? ==> BookOf(a.records[w]).held == [v.writer.line]
    ensures Step(a, action, b, render) && b.content == v.content && b.records == a.records && b.reappeared == a.reappeared
    ensures b.lost == a.lost + if v.writer.Taker? then multiset{Trim(v.writer.line)} else multiset{}
    ensures b.doubled == a.doubled + if v.writer.Putter? then multiset{Trim(v.writer.line)} else multiset{}
  {
    hide BookOf, Stock, Trim, Follows;
    assert v == Version(v.content, v.writer);
    match v.writer
    case Other =>
      action := Edit(v.content);
      b := a.(content := v.content, added := a.added + (Stock(v.content) - Stock(a.content)),
              removed := a.removed + (Stock(a.content) - Stock(v.content)));
    case Taker(line) =>
      action := Slip(line);
      b := a.(content := v.content, lost := a.lost + multiset{Trim(line)});
    case Putter(line) =>
      action := Echo(w, line);
      b := a.(content := v.content, doubled := a.doubled + multiset{Trim(line)});
  }

  function AsCall(answer: Taken): Call {
    Take(if answer.Card? then Some(answer.line) else None)
  }

  /** What `CardRow.Consume` does to the row between two versions is a run of the ledger that ends with the
    * sender's recorded take; the lines it removed without returning them are lost.
    */
  lemma TakeIsRun(before: seq<Version>, after: seq<Version>, t: Taking, a: World, w: nat, render: string -> string)
    returns (worlds: seq<World>, actions: seq<Action>)
    requires before != [] && before <= after && Consistent(after) && OwnSince(before, after) == Takers(t.lines)
    requires t.answer.Card? ==> after[|after| - 1].writer == Taker(t.answer.line) && |before| < |after|
    requires a.content == before[|before| - 1].content && w < |a.records| && Proper(a.records[w] + [AsCall(t.answer)], render)
    ensures Steps(worlds, actions, render) && worlds[0] == a
    ensures var b := worlds[|actions|];
            && b.content == after[|after| - 1].content
            && b.records == a.records[w := a.records[w] + [AsCall(t.answer)]]
            && b.lost == a.lost + Bag(Unreturned(t)) && b.reappeared == a.reappeared && b.doubled == a.doubled
  {
    hide BookOf, Follows, Stock, Proper, Bag, OwnSince, Trim, Step, Writes, Takers, Unreturned;
    var n := |after| - 1;
    var c := AsCall(t.answer);
    var middle := if t.answer.Card? then after[..n] else after;
    UnreturnedBefore(before, after, t);
    worlds, actions := WritesAreSteps(before, middle, a, w, render);
    var b := worlds[|actions|];
    var d := b.(content := after[n].content, records := b.records[w := b.records[w] + [c]]);
    TakeStep(b, w, t.answer, after[n], d, render);
    SnocStep(worlds, actions, Act(w, c), d, render);
    worlds, actions := worlds + [d], actions + [Act(w, c)];
  }

  lemma UnreturnedBefore(before: seq<Version>, after: seq<Version>, t: Taking)
    requires before != [] && before <= after && OwnSince(before, after) == Takers(t.lines)
    requires t.answer.Card? ==> after[|after| - 1].writer == Taker(t.answer.line) && |before| < |after|
    ensures var middle := if t.answer.Card? then after[..|after| - 1] else after;
            && before <= middle
            && TakenBy(OwnSince(before, middle)) == Bag(Unreturned(t)) && PutBy(OwnSince(before, middle)) == multiset{}
            && (forall line :: Putter(line) !in OwnSince(before, middle))
  {
    hide Bag, OwnSince, TakenBy, PutBy;
    if t.answer.Card? {
      LastSince(before, after);
      var own := OwnSince(before, after[..|after| - 1]);
      assert |t.lines| == |own| + 1;
      assert Takers(Unreturned(t)) == Takers(t.lines)[..|own|] == own;
    }
    TakersTake(Unreturned(t));
  }

  lemma TakeStep(a: World, w: nat, answer: Taken, v: Version, b: World, render: string -> string)
    requires w < |a.records| && Proper(a.records[w] + [AsCall(answer)], render)
    requires if answer.Card? then Follows(a.content, v) && v.writer == Taker(answer.line) else a.content == v.content
    requires b == a.(content := v.content, records := a.records[w := a.records[w] + [AsCall(answer)]])
    ensures Step(a, Act(w, AsCall(answer)), b, render)
  {
    hide Proper, Follows;
    assert v == Version(v.content, v.writer);
    assert Writes(a.content, b.content, AsCall(answer), multiset{});
    assert a.reappeared == a.reappeared + multiset{};
  }

  lemma {:induction false} TakersTake(lines: seq<string>)
    ensures TakenBy(Takers(lines)) == Bag(lines) && PutBy(Takers(lines)) == multiset{}
  {
    hide Trim;
    if lines != [] {
      var n := |lines| - 1;
      assert Takers(lines)[..n] == Takers(lines[..n]) && lines == lines[..n] + [lines[n]];
      TakersTake(lines[..n]);
      BagOfParts(lines[..n], [lines[n]]);
      BagOfFirst(lines[n], []);
    }
  }

  /** What `CardRow.Restore` does to the row is a run of the ledger that ends with the sender's recorded
    * restore: a success is one of the copies, a failure may be one that reappeared, and the others
    * are doubled.
    */
  lemma PutIsRun(before: seq<Version>, after: seq<Version>, line: string, ok: bool, copies: nat, a: World, w: nat, render: string -> string)
    returns (worlds: seq<World>, actions: seq<Action>)
    requires before != [] && before <= after && Consistent(after) && OwnSince(before, after) == Putters(line, copies)
    requires ok ==> after[|after| - 1].writer == Putter(line) && |before| < |after|
    requires a.content == before[|before| - 1].content && w < |a.records| && Proper(a.records[w] + [PutBack(line, ok)], render)
    ensures Steps(worlds, actions, render) && worlds[0] == a
    ensures var b := worlds[|actions|];
            var noticed := |before| < |after| && after[|after| - 1].writer == Putter(line);
            && b.content == after[|after| - 1].content
            && b.records == a.records[w := a.records[w] + [PutBack(line, ok)]]
            && b.lost == a.lost
            && b.reappeared == a.reappeared + (if noticed && !ok then multiset{Trim(line)} else multiset{})
            && b.doubled == a.doubled + Bag(Copies(line, if noticed then copies - 1 else copies))
  {
    hide BookOf, Follows, Stock, Proper, Bag, OwnSince, Trim, Step, Writes, Putters, Copies;
    var n := |after| - 1;
    var noticed := |before| < |after| && after[n].writer == Putter(line);
    var middle := if noticed then after[..n] else after;
    HoldsForPut(a.records[w], line, ok, render);
    CopiesBefore(before, after, line, copies);
    worlds, actions := WritesAreSteps(before, middle, a, w, render);
    var b := worlds[|actions|];
    var back := if noticed && !ok then multiset{Trim(line)} else multiset{};
    var d := b.(content := after[n].content, records := b.records[w := b.records[w] + [PutBack(line, ok)]], reappeared := b.reappeared + back);
    PutStep(b, w, line, ok, noticed, after[n], d, render);
    SnocStep(worlds, actions, Act(w, PutBack(line, ok)), d, render);
    worlds, actions := worlds + [d], actions + [Act(w, PutBack(line, ok))];
  }

  lemma CopiesBefore(before: seq<Version>, after: seq<Version>, line: string, copies: nat)
    requires before != [] && before <= after && OwnSince(before, after) == Putters(line, copies)
    ensures var noticed := |before| < |after| && after[|after| - 1].writer == Putter(line);
            var middle := if noticed then after[..|after| - 1] else after;
            && (noticed ==> copies > 0) && before <= middle
            && PutBy(OwnSince(before, middle)) == Bag(Copies(line, if noticed then copies - 1 else copies))
            && TakenBy(OwnSince(before, middle)) == multiset{}
            && (forall l :: Putter(l) in OwnSince(before, middle) ==> l == line)
  {
    hide Bag, OwnSince, TakenBy, PutBy;
    if |before| < |after| && after[|after| - 1].writer == Putter(line) {
      LastSince(before, after);
      var own := OwnSince(before, after[..|after| - 1]);
      assert copies == |own| + 1;
      assert Putters(line, copies - 1) == Putters(line, copies)[..|own|] == own;
      PuttersPut(line, copies - 1);
    } else {
      PuttersPut(line, copies);
    }
  }

  lemma HoldsForPut(record: seq<Call>, line: string, ok: bool, render: string -> string)
    requires Proper(record + [PutBack(line, ok)], render)
    ensures BookOf(record).held == [line]
  {
    hide BookOf;
    assert (record + [PutBack(line, ok)])[..|record|] == record;
  }

  lemma PutStep(a: World, w: nat, line: string, ok: bool, noticed: bool, v: Version, b: World, render: string -> string)
    requires w < |a.records| && Proper(a.records[w] + [PutBack(line, ok)], render) && (ok ==> noticed)
    requires if noticed then Follows(a.content, v) && v.writer == Putter(line) else a.content == v.content
    requires b == a.(content := v.content, records := a.records[w := a.records[w] + [PutBack(line, ok)]],
                     reappeared := a.reappeared + if noticed && !ok then multiset{Trim(line)} else multiset{})
    ensures Step(a, Act(w, PutBack(line, ok)), b, render)
  {
    hide Proper, Follows, Trim;
    assert v == Version(v.content, v.writer);
    assert Writes(a.content, b.content, PutBack(line, ok), if noticed && !ok then multiset{Trim(line)} else multiset{});
  }

  lemma {:induction false} PuttersPut(line: string, copies: nat)
    ensures PutBy(Putters(line, copies)) == Bag(Copies(line, copies)) && TakenBy(Putters(line, copies)) == multiset{}
  {
    hide Trim;
    if copies > 0 {
      var n := copies - 1;
      assert Putters(line, copies)[..n] == Putters(line, n) && Copies(line, copies) == Copies(line, n) + [line];
      hide Putters, Copies, Bag;
      PuttersPut(line, n);
      BagOfParts(Copies(line, n), [line]);
      BagOfFirst(line, []);
    }
  }
}
