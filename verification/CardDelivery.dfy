/** The three card senders: what they may claim about the messages, cards and units they handled.
  *
  * Every use of a port is recorded as a `Call` together with its answer, and the answer of the
  * n-th call is whatever `Environment` says, so the contracts hold for every pattern of failures.
  */
module CardDelivery {
  import opened Options
  import opened GoStrings
  import opened OrderQuantity
  import opened Proofs

  // ---- ports ----

  datatype Sending = Sent | NotSent | Unknown

  datatype Reply = Content(text: string) | FetchFailed(dispatched: bool)

  datatype Call =
    | Check(ok: bool)
    | Take(taken: Option<string>)
    | Fetch(unit: int, reply: Reply)
    | Deliver(message: Message, outcome: Sending)
    | PutBack(line: string, ok: bool)

  datatype Environment = Environment(
    allows: nat -> bool,
    stock: nat -> Option<string>,
    replies: nat -> Reply,
    delivers: nat -> Sending,
    restores: nat -> bool)

  datatype Failure = Plain | Revoked | Unsent | NoRetry | Uncertain

  /** The stock never yields a blank line, as `CardStock.CardRow.Consume` promises. */
  ghost predicate CleanStock(world: Environment) {
    forall n :: world.stock(n).Some? ==> !Blank(world.stock(n).value)
  }

  /** `review` is the proof of what may or may not have reached the buyer. */
  datatype Result = Result(sent: int, proof: Proof, review: Proof, failure: Option<Failure>)

  datatype Card = Card(kind: string, text: string, image: string, enabled: bool)

  // ---- what a record of calls says ----

  /** The messages that were confirmed sent, in order. */
  function Confirmed(calls: seq<Call>): seq<Message> {
    if calls == [] then []
    else
      var c := calls[|calls| - 1];
      Confirmed(calls[..|calls| - 1]) + if c.Deliver? && c.outcome.Sent? then [c.message] else []
  }

  /** The messages whose delivery is unknown, in order. */
  function Doubted(calls: seq<Call>): seq<Message> {
    if calls == [] then []
    else
      var c := calls[|calls| - 1];
      Doubted(calls[..|calls| - 1]) + if c.Deliver? && c.outcome.Unknown? then [c.message] else []
  }

  /** The unit numbers of the fetch calls. */
  function Fetched(calls: seq<Call>): seq<int> {
    if calls == [] then []
    else
      var c := calls[|calls| - 1];
      Fetched(calls[..|calls| - 1]) + if c.Fetch? then [c.unit] else []
  }

  /** The non-blank contents the API handed over, in order. */
  function Contents(calls: seq<Call>): seq<string> {
    if calls == [] then []
    else
      var c := calls[|calls| - 1];
      Contents(calls[..|calls| - 1]) + if c.Fetch? && c.reply.Content? && !Blank(c.reply.text) then [c.reply.text] else []
  }

  /** How many fetch calls may have used up a card at the API. */
  function Claimed(calls: seq<Call>): nat {
    if calls == [] then 0
    else
      var c := calls[|calls| - 1];
      Claimed(calls[..|calls| - 1]) + if c.Fetch? && (c.reply.Content? || c.reply.dispatched) then 1 else 0
  }

  /** Where the stock lines of one sender are. */
  datatype Book = Book(
    held: seq<string>, delivered: seq<string>, unknown: seq<string>, stranded: seq<string>,
    returned: seq<string>, blank: seq<string>)

  const EMPTY := Book([], [], [], [], [], [])

  function Enter(b: Book, c: Call): Book {
    match c
    case Take(Some(line)) => if Blank(line) then b.(blank := b.blank + [line]) else b.(held := b.held + [line])
    case Deliver(_, Sent) => b.(held := [], delivered := b.delivered + b.held)
    case Deliver(_, Unknown) => b.(held := [], unknown := b.unknown + b.held)
    case PutBack(_, true) => b.(held := [], returned := b.returned + b.held)
    case PutBack(_, false) => b.(held := [], stranded := b.stranded + b.held)
    case _ => b
  }

  function BookOf(calls: seq<Call>): Book {
    if calls == [] then EMPTY else Enter(BookOf(calls[..|calls| - 1]), calls[|calls| - 1])
  }

  /** What is in `after` and not yet in `before`. */
  function Gain(before: Book, after: Book): Book
    requires Grows(before, after)
  {
    Book(after.held, after.delivered[|before.delivered|..], after.unknown[|before.unknown|..],
         after.stranded[|before.stranded|..], after.returned[|before.returned|..], after.blank[|before.blank|..])
  }

  predicate Grows(before: Book, after: Book) {
    && before.delivered <= after.delivered && before.unknown <= after.unknown && before.stranded <= after.stranded
    && before.returned <= after.returned && before.blank <= after.blank
  }

  /** A sender takes a line only with empty hands, sends what it holds and puts back what it holds. */
  predicate Proper(calls: seq<Call>, render: string -> string)
  {
    calls != [] ==>
      var held, c := BookOf(calls[..|calls| - 1]).held, calls[|calls| - 1];
      Proper(calls[..|calls| - 1], render) && Allowed(held, c, render)
  }

  predicate Allowed(held: seq<string>, c: Call, render: string -> string) {
    && (c.Take? ==> held == [])
    && (c.PutBack? ==> held == [c.line])
    && (c.Deliver? && held != [] ==> |held| == 1 && c.message == TextMessage(render(held[0])))
  }

  /** From call number `from` on, every take, fetch and delivery comes right after a successful check. */
  predicate Guarded(calls: seq<Call>, from: nat) {
    forall i :: from <= i < |calls| && NeedsCheck(calls[i]) ==>
      from < i && calls[i - 1] == Check(true)
  }

  /** Once a check failed, nothing is taken, fetched or delivered any more. */
  predicate Fenced(calls: seq<Call>, from: nat) {
    forall i, j :: from <= i < j < |calls| && calls[i] == Check(false) ==> calls[j].PutBack?
  }

  predicate NoDenial(calls: seq<Call>, from: nat) {
    forall i :: from <= i < |calls| ==> calls[i] != Check(false)
  }

  /** Guarded so far and still allowed to act. */
  predicate Open(calls: seq<Call>, from: nat) {
    Guarded(calls, from) && NoDenial(calls, from)
  }

  /** Guarded and fenced: what every record of a finished sender is. */
  predicate Closed(calls: seq<Call>, from: nat) {
    Guarded(calls, from) && Fenced(calls, from)
  }

  predicate NeedsCheck(c: Call) {
    c.Take? || c.Fetch? || c.Deliver?
  }

  predicate SameFetches(a: seq<Call>, b: seq<Call>) {
    Fetched(a) == Fetched(b) && Claimed(a) == Claimed(b) && Contents(a) == Contents(b)
  }

  predicate JustChecked(calls: seq<Call>, from: nat) {
    from < |calls| && calls[|calls| - 1] == Check(true)
  }

  lemma Discipline(calls: seq<Call>, from: nat, c: Call)
    requires from <= |calls|
    ensures Open(calls, from) ==> Closed(calls, from)
    ensures Open(calls, from) && c != Check(false) && (NeedsCheck(c) ==> JustChecked(calls, from)) ==> Open(calls + [c], from)
    ensures Open(calls, from) && c == Check(false) ==> Closed(calls + [c], from)
    ensures Closed(calls, from) && c.PutBack? ==> Closed(calls + [c], from)
  {
    var next := calls + [c];
    assert forall i :: 0 <= i < |calls| ==> next[i] == calls[i];
  }

  lemma Snoc(calls: seq<Call>, c: Call)
    ensures Confirmed(calls + [c]) == Confirmed(calls) + if c.Deliver? && c.outcome.Sent? then [c.message] else []
    ensures Doubted(calls + [c]) == Doubted(calls) + if c.Deliver? && c.outcome.Unknown? then [c.message] else []
    ensures Fetched(calls + [c]) == Fetched(calls) + if c.Fetch? then [c.unit] else []
    ensures Contents(calls + [c]) == Contents(calls) + if c.Fetch? && c.reply.Content? && !Blank(c.reply.text) then [c.reply.text] else []
    ensures Claimed(calls + [c]) == Claimed(calls) + if c.Fetch? && (c.reply.Content? || c.reply.dispatched) then 1 else 0
    ensures BookOf(calls + [c]) == Enter(BookOf(calls), c)
    ensures forall render :: Proper(calls + [c], render) <==> Proper(calls, render) && Allowed(BookOf(calls).held, c, render)
  {
    assert (calls + [c])[..|calls|] == calls;
  }

  /** `start, start + 1, ..., start + n - 1`. */
  function Range(start: int, n: nat): (r: seq<int>)
    ensures |r| == n && forall i :: 0 <= i < n ==> r[i] == start + i
  {
    seq(n, i => start + i)
  }

  function Max0(n: int): nat {
    if n < 0 then 0 else n
  }

  /** What became of one unit of a stock card. */
  datatype DataStep =
    | Delivered(line: string)
    | Skipped(line: string)
    | Refused(failure: Failure)
    | Returned(line: string)
    | Stranded(line: string)
    | Lost(line: string)

  function AfterStep(b: Book, step: DataStep): Book {
    match step
    case Delivered(line) => b.(delivered := b.delivered + [line])
    case Skipped(line) => b.(blank := b.blank + [line])
    case Refused(_) => b
    case Returned(line) => b.(returned := b.returned + [line])
    case Stranded(line) => b.(stranded := b.stranded + [line])
    case Lost(line) => b.(unknown := b.unknown + [line])
  }

  function Rendered(lines: seq<string>, render: string -> string): (r: seq<Message>)
    ensures |r| == |lines|
  {
    seq(|lines|, i requires 0 <= i < |lines| => TextMessage(render(lines[i])))
  }

  /** The result of a stock sender in terms of where its lines went. */
  ghost predicate DataResult(r: Result, gain: Book, count: int, render: string -> string) {
    var failed := gain.unknown + gain.stranded + gain.returned;
    && gain.held == []
    // the proof is about exactly the delivered lines
    && r.proof.messages == Rendered(gain.delivered, render)
    && r.proof.preparedUnits == |gain.delivered| && r.proof.expectedUnits == count && r.proof.unknownUnits == 0
    && Coherent(r.proof) && r.proof.skips == []
    && r.sent == |gain.delivered| + |gain.blank|
    // the review proof is about the line whose fate is unknown, the pending mark about the stranded one
    && r.review == (if gain.unknown != [] then UnknownText(render(gain.unknown[0])) else NO_PROOF)
    && (r.proof.refillPending <==> gain.stranded != [])
    // at most one line is not delivered, and it decides the failure
    && |failed| <= 1
    && (r.failure == Some(Uncertain) <==> gain.unknown != [] || gain.stranded != [])
    && (r.failure == Some(Unsent) <==> gain.returned != [])
    // success is all units, failure fewer
    && r.sent <= Max0(count)
    && (r.failure.None? <==> r.sent == Max0(count))
  }

  function StoppedResult(sent: int, proof: Proof, step: DataStep, render: string -> string): (r: Result)
    requires !step.Delivered? && !step.Skipped?
    ensures r.sent == sent && r.proof.preparedUnits == proof.preparedUnits
    ensures r.proof.messages == proof.messages && (step.Refused? ==> r.failure == Some(step.failure))
    ensures !step.Refused? ==> r.failure == Some(if step.Returned? then Unsent else Uncertain)
    ensures r.review.messages == if step.Lost? then [TextMessage(render(step.line))] else []
  {
    match step
    case Refused(failure) => Result(sent, proof, NO_PROOF, Some(failure))
    case Returned(_) => Result(sent, proof, NO_PROOF, Some(Unsent))
    case Stranded(_) => Result(sent, proof.(refillPending := true), NO_PROOF, Some(Uncertain))
    case Lost(line) => Result(sent, proof, UnknownText(render(line)), Some(Uncertain))
  }

  /** The review proof of one text whose delivery is unknown. */
  function UnknownText(text: string): Proof {
    NO_PROOF.(unknownUnits := 1, tradeText := text, messages := [TextMessage(text)])
  }

  /** What became of one unit of an API card. */
  datatype ApiStep = ApiDelivered(text: string) | ApiStopped(failure: Failure, review: Proof)

  /** The result of the API sender: `claimed` counts the requests that may have used up a card. */
  predicate ApiResult(r: Result, claimed: int, count: int) {
    && Coherent(r.proof) && (forall i :: 0 <= i < |r.proof.messages| ==> r.proof.messages[i].TextMessage?)
    && r.sent == r.proof.preparedUnits == |r.proof.messages|
    && r.proof.expectedUnits == count && r.proof.unknownUnits == 0 && !r.proof.refillPending && r.proof.skips == []
    // uncertain exactly when one claimed card did not end in a confirmed message
    && (r.failure == Some(Uncertain) <==> claimed == r.sent + 1) && r.sent <= claimed <= r.sent + 1
    && (r.review == NO_PROOF || (r.failure == Some(Uncertain) && r.review == UnknownText(r.review.tradeText)))
    && r.sent <= Max0(count)
    && (r.failure.None? <==> r.sent == Max0(count))
  }

  /** What a text or an image card sends for every unit, or a configuration error (`cardContent`). */
  function CardMessage(card: Card, render: string -> string): Option<Message> {
    if card.kind == "text" && !Blank(card.text) then Some(TextMessage(render(card.text)))
    else if card.kind == "image" && !Blank(card.image) then Some(ImageMessage(card.image))
    else None
  }

  /** The review proof of one message whose delivery is unknown. */
  function UnknownMessage(m: Message): Proof {
    match m
    case TextMessage(text) => UnknownText(text)
    case ImageMessage(url) => NO_PROOF.(unknownUnits := 1, picList := [url], messages := [m])
  }

  /** The proof of one message that may have been sent, field by field. */
  function ReviewOf(m: Message): Proof {
    match m
    case TextMessage(text) => Proof(text, [], [m], 0, 0, 1, false, [])
    case ImageMessage(url) => Proof("", [url], [m], 0, 0, 1, false, [])
  }

  /** The result of the text and image sender for a card whose every unit is the message `m`. */
  predicate FixedResult(r: Result, m: Option<Message>, count: int) {
    && Coherent(r.proof) && (forall i :: 0 <= i < |r.proof.messages| ==> m == Some(r.proof.messages[i]))
    && r.sent == r.proof.preparedUnits == |r.proof.messages|
    && r.proof.expectedUnits == count && r.proof.unknownUnits == 0 && !r.proof.refillPending && r.proof.skips == []
    && r.review == (if r.failure == Some(Uncertain) && m.Some? then UnknownMessage(m.value) else NO_PROOF)
    && r.sent <= Max0(count)
    && (r.failure.None? <==> r.sent == Max0(count))
  }

  // ---- the executor ----

  class Executor {
    var calls: seq<Call>
    const world: Environment
    const render: string -> string

    constructor (world: Environment, render: string -> string)
      ensures calls == []
    {
      calls := [];
      this.world, this.render := world, render;
    }

    /** Adds a call to the record; `from` is where the record of the running sender starts. */
    method Record(c: Call, ghost from: nat)
      requires from <= |calls|
      modifies this
      ensures calls == old(calls) + [c]
      ensures Confirmed(calls) == Confirmed(old(calls)) + if c.Deliver? && c.outcome.Sent? then [c.message] else []
      ensures Doubted(calls) == Doubted(old(calls)) + if c.Deliver? && c.outcome.Unknown? then [c.message] else []
      ensures Fetched(calls) == Fetched(old(calls)) + if c.Fetch? then [c.unit] else []
      ensures Contents(calls) == Contents(old(calls)) + if c.Fetch? && c.reply.Content? && !Blank(c.reply.text) then [c.reply.text] else []
      ensures Claimed(calls) == Claimed(old(calls)) + if c.Fetch? && (c.reply.Content? || c.reply.dispatched) then 1 else 0
      ensures BookOf(calls) == Enter(BookOf(old(calls)), c)
      ensures Proper(calls, render) <==> Proper(old(calls), render) && Allowed(BookOf(old(calls)).held, c, render)
      ensures Open(old(calls), from) && c != Check(false) && (NeedsCheck(c) ==> JustChecked(old(calls), from)) ==> Open(calls, from)
      ensures Open(old(calls), from) && c == Check(false) ==> Closed(calls, from)
      ensures Closed(old(calls), from) && c.PutBack? ==> Closed(calls, from)
    {
      Snoc(calls, c);
      Discipline(calls, from, c);
      calls := calls + [c];
    }

    /** `checkRunExecution`. */
    method CheckExecution(ghost from: nat) returns (ok: bool)
      requires from <= |calls| && Open(calls, from) && Proper(calls, render)
      modifies this
      ensures calls == old(calls) + [Check(ok)] && Closed(calls, from) && Proper(calls, render)
      ensures ok ==> Open(calls, from)
      ensures Confirmed(calls) == Confirmed(old(calls)) && BookOf(calls) == BookOf(old(calls))
      ensures Doubted(calls) == Doubted(old(calls))
      ensures SameFetches(old(calls), calls)
    {
      hide Confirmed, Doubted, BookOf, Proper, Fetched, Claimed, Contents;
      Discipline(calls, from, Check(true));
      ok := world.allows(|calls|);
      Record(Check(ok), from);
      Discipline(calls, from, Check(true));
    }

    /** `sendText` and `sendImage`: the execution right is checked before anything is sent. */
    method Send(m: Message, ghost from: nat) returns (s: Sending)
      requires from <= |calls| && Open(calls, from) && Proper(calls, render)
      requires BookOf(calls).held != [] ==> |BookOf(calls).held| == 1 && m == TextMessage(render(BookOf(calls).held[0]))
      modifies this
      ensures old(calls) < calls && Closed(calls, from) && Proper(calls, render)
      ensures !s.NotSent? ==> Open(calls, from)
      ensures calls[|calls| - 1] == Deliver(m, s) || (s.NotSent? && calls[|calls| - 1] == Check(false))
      ensures BookOf(calls) == Enter(BookOf(old(calls)), Deliver(m, s))
      ensures Confirmed(calls) == Confirmed(old(calls)) + if s.Sent? then [m] else []
      ensures Doubted(calls) == Doubted(old(calls)) + if s.Unknown? then [m] else []
      ensures SameFetches(old(calls), calls)
    {
      hide Confirmed, Doubted, BookOf, Proper, Fetched, Claimed, Contents, Guarded, NoDenial, Fenced;
      var ok := CheckExecution(from);
      if !ok { return NotSent; }
      s := world.delivers(|calls|);
      Record(Deliver(m, s), from);
      Discipline(calls, from, Check(true));
    }

    // ---- stock cards ----

    /** One unit of `sendDataCardWithProof`: check, take a line, send it, put it back if it certainly
      * was not sent.
      */
    method DataUnit(ghost from: nat) returns (step: DataStep)
      requires from <= |calls| && Open(calls, from) && Proper(calls, render) && BookOf(calls).held == []
      modifies this
      ensures old(calls) < calls && Closed(calls, from) && Proper(calls, render)
      ensures step.Delivered? || step.Skipped? ==> Open(calls, from)
      ensures BookOf(calls) == AfterStep(BookOf(old(calls)), step)
      ensures Confirmed(calls) == Confirmed(old(calls)) + if step.Delivered? then [TextMessage(render(step.line))] else []
      ensures Doubted(calls) == Doubted(old(calls)) + if step.Lost? then [TextMessage(render(step.line))] else []
      ensures !step.Skipped? && !step.Refused? ==> !Blank(step.line)
      ensures step.Skipped? ==> Blank(step.line) && !CleanStock(world)
      ensures step.Refused? ==> step.failure.Revoked? || step.failure.Plain?
      ensures step.Refused? ==> calls[|calls| - 1] == if step.failure.Revoked? then Check(false) else Take(None)
    {
      hide Confirmed, Doubted, BookOf, Proper, Blank, Fetched, Claimed, Contents, Guarded, NoDenial, Fenced;
      var ok := CheckExecution(from);
      if !ok { return Refused(Revoked); }
      var taken := world.stock(|calls|);
      Record(Take(taken), from);
      Discipline(calls, from, Check(true));
      if taken.None? { return Refused(Plain); }
      var line := taken.value;
      if Blank(line) { return Skipped(line); }
      assert BookOf(calls).held == [line];
      var s := Send(TextMessage(render(line)), from);
      match s
      case Sent => return Delivered(line);
      case Unknown => return Lost(line);
      case NotSent =>
        var restored := world.restores(|calls|);
        Record(PutBack(line, restored), from);
        return if restored then Returned(line) else Stranded(line);
    }

    /** `sendDataCardWithProof`. */
    method SendDataCard(count: int) returns (r: Result)
      requires Proper(calls, render) && BookOf(calls).held == []
      modifies this
      ensures old(calls) <= calls && Proper(calls, render) && Closed(calls, |old(calls)|)
      ensures Confirmed(calls) == Confirmed(old(calls)) + r.proof.messages
      ensures Grows(BookOf(old(calls)), BookOf(calls))
      ensures DataResult(r, Gain(BookOf(old(calls)), BookOf(calls)), count, render)
      ensures Doubted(calls) == Doubted(old(calls)) + r.review.messages
      ensures if count > 0 then old(calls) < calls else calls == old(calls) && r.sent == 0 && r.failure.None?
      ensures r.failure == Some(Revoked) ==> calls[|calls| - 1] == Check(false)
      ensures r.failure == Some(Plain) ==> calls[|calls| - 1] == Take(None)
      ensures r.failure != Some(NoRetry)
      // the stock never yields blank lines, so every unit sent is a unit prepared
      ensures CleanStock(world) ==> r.sent == r.proof.preparedUnits
    {
      hide AfterStep, Grows, CleanStock, Confirmed, Doubted, BookOf, Proper, Blank, Fetched, Claimed, Contents, Open, Closed, DataResult, DataProof, StoppedResult, TradeText, AppendTradeText, Gain;
      ghost var from, b0 := |calls|, BookOf(calls);
      ghost var delivered: seq<string>, blank: seq<string> := [], [];
      var sent := 0;
      var proof := NO_PROOF.(expectedUnits := count);
      NothingSent(count, render);
      Discipline(calls, from, Check(true));
      OpenAtStart(calls);
      for i := 0 to Max0(count)
        invariant sent == i && old(calls) <= calls && Proper(calls, render) && Open(calls, from)
        invariant BookOf(calls) == b0.(delivered := b0.delivered + delivered, blank := b0.blank + blank)
        invariant Doubted(calls) == Doubted(old(calls)) + []
        invariant Confirmed(calls) == Confirmed(old(calls)) + proof.messages && proof.preparedUnits == |delivered|
        invariant DataProof(proof, delivered, count, render)
        invariant sent == |delivered| + |blank| && (if i > 0 then old(calls) < calls else calls == old(calls))
        invariant CleanStock(world) ==> blank == []
      {
        var step := DataUnit(from);
        OneMore(b0, delivered, blank, step);
        if step.Delivered? {
          ProofGrows(proof, delivered, count, render, step.line);
          var text := render(step.line);
          proof := proof.(
            tradeText := AppendTradeText(proof.tradeText, text),
            messages := proof.messages + [TextMessage(text)],
            preparedUnits := proof.preparedUnits + 1);
          delivered := delivered + [step.line];
        } else if step.Skipped? {
          blank := blank + [step.line];
        } else {
          r := StoppedResult(sent, proof, step, render);
          StoppedIsDataResult(proof, delivered, blank, count, render, step);
          GainOf(b0, delivered, blank, step);
          return;
        }
        sent := sent + 1;
      }
      Discipline(calls, from, Check(true));
      CompletedIsDataResult(proof, delivered, blank, count, render);
      GainOfFinished(b0, delivered, blank);
      r := Result(sent, proof, NO_PROOF, None);
    }

    // ---- API cards ----

    /** `sendAPICardWithProof`. Everything the API handed over is in the proof or in the review. */
    method SendApiCard(count: int) returns (r: Result)
      requires Proper(calls, render) && BookOf(calls).held == []
      modifies this
      ensures old(calls) <= calls && Proper(calls, render) && Closed(calls, |old(calls)|)
      ensures Confirmed(calls) == Confirmed(old(calls)) + r.proof.messages
      ensures Contents(calls) == Contents(old(calls)) + Texts(r.proof.messages + r.review.messages)
      ensures ApiResult(r, Claimed(calls) - Claimed(old(calls)), count)
      ensures Doubted(calls) == Doubted(old(calls)) || Doubted(calls) == Doubted(old(calls)) + r.review.messages
      ensures FetchedUnits(old(calls), calls, r.sent) || FetchedUnits(old(calls), calls, r.sent + 1)
      ensures BookOf(calls) == BookOf(old(calls))
      ensures if count > 0 then old(calls) < calls else calls == old(calls) && r.sent == 0 && r.failure.None?
      ensures r.failure != Some(Plain) && r.failure != Some(Unsent)
      ensures r.failure == Some(Revoked) ==> calls[|calls| - 1] == Check(false)
      ensures r.failure == Some(NoRetry) ==> calls[|calls| - 1].Fetch? && calls[|calls| - 1].reply == FetchFailed(false)
    {
      hide Confirmed, Doubted, BookOf, Proper, Blank, Fetched, Claimed, Contents, Open, Closed, AppendTradeText, ApiSoFar, ApiUnitDone, ApiResult;
      ghost var from := |calls|;
      var sent: nat := 0;
      var proof := NO_PROOF.(expectedUnits := count);
      OpenAtStart(calls);
      NothingFromApi(calls, count);
      for unit := 1 to Max0(count) + 1
        invariant sent == unit - 1 && old(calls) <= calls && Proper(calls, render) && Open(calls, from)
        invariant Doubted(calls) == Doubted(old(calls))
        invariant BookOf(calls) == BookOf(old(calls)) && ApiSoFar(old(calls), calls, proof, sent, count)
        invariant if sent > 0 then old(calls) < calls else calls == old(calls)
      {
        ghost var before := calls;
        var step := ApiUnit(unit, from);
        ApiAdvances(old(calls), before, calls, proof, sent, count, step);
        if step.ApiStopped? {
          r := Result(sent, proof, step.review, Some(step.failure));
          return;
        }
        sent := sent + 1;
        proof := proof.(
          tradeText := AppendTradeText(proof.tradeText, step.text),
          messages := proof.messages + [TextMessage(step.text)],
          preparedUnits := proof.preparedUnits + 1);
      }
      Discipline(calls, from, Check(true));
      ApiCompletes(old(calls), calls, proof, sent, count);
      r := Result(sent, proof, NO_PROOF, None);
    }

    /** One unit of the API sender. */
    method ApiUnit(unit: int, ghost from: nat) returns (step: ApiStep)
      requires from <= |calls| && Open(calls, from) && Proper(calls, render) && BookOf(calls).held == []
      modifies this
      ensures old(calls) < calls && Closed(calls, from) && Proper(calls, render)
      ensures step.ApiDelivered? ==> Open(calls, from)
      ensures BookOf(calls) == BookOf(old(calls)) && ApiUnitDone(old(calls), calls, unit, step)
      ensures Doubted(calls) == Doubted(old(calls))
              || (step.ApiStopped? && Doubted(calls) == Doubted(old(calls)) + step.review.messages)
      ensures step.ApiStopped? ==> step.failure.Revoked? || step.failure.NoRetry? || step.failure.Uncertain?
      ensures step.ApiStopped? && step.failure.Revoked? ==> calls[|calls| - 1] == Check(false)
      ensures step.ApiStopped? && step.failure.NoRetry? ==> calls[|calls| - 1].Fetch? && calls[|calls| - 1].reply == FetchFailed(false)
    {
      hide ApiUnitDone, Confirmed, Doubted, BookOf, Proper, Blank, Fetched, Claimed, Contents, Open, Closed;
      var ok := CheckExecution(from);
      if !ok {
        UnitIsDone(old(calls), calls, unit, None, ApiStopped(Revoked, NO_PROOF));
        return ApiStopped(Revoked, NO_PROOF);
      }
      var reply := world.replies(|calls|);
      Record(Fetch(unit, reply), from);
      Discipline(calls, from, Check(true));
      if reply.FetchFailed? {
        step := ApiStopped(if reply.dispatched then Uncertain else NoRetry, NO_PROOF);
      } else if Blank(reply.text) {
        step := ApiStopped(Uncertain, NO_PROOF);
      } else {
        var s := Send(TextMessage(reply.text), from);
        step := if s.Sent? then ApiDelivered(reply.text) else ApiStopped(Uncertain, UnknownText(reply.text));
      }
      UnitIsDone(old(calls), calls, unit, Some(reply), step);
    }

    // ---- text and image cards ----

    /** The loop of `sendCardWithProof` for text and image cards. */
    method SendFixedCard(card: Card, count: int) returns (r: Result)
      requires Proper(calls, render) && BookOf(calls).held == []
      modifies this
      ensures old(calls) <= calls && Proper(calls, render) && Closed(calls, |old(calls)|)
      ensures Confirmed(calls) == Confirmed(old(calls)) + r.proof.messages
      ensures FixedResult(r, CardMessage(card, render), count)
      // what is sent or may have been sent is the rendered text or the picture; another card sends nothing
      ensures card.kind == "text" && !Blank(card.text) ==>
                forall m :: m in r.proof.messages || m in r.review.messages ==> m == TextMessage(render(card.text))
      ensures card.kind == "image" && !Blank(card.image) ==>
                forall m :: m in r.proof.messages || m in r.review.messages ==> m == ImageMessage(card.image)
      ensures 0 < count && !(card.kind == "text" && !Blank(card.text)) && !(card.kind == "image" && !Blank(card.image)) ==>
                || (calls == old(calls) + [Check(true)] && r.failure == Some(Plain))
                || (calls == old(calls) + [Check(false)] && r.failure == Some(Revoked))
      ensures !(card.kind == "text" && !Blank(card.text)) && !(card.kind == "image" && !Blank(card.image)) ==>
                r.proof.messages == [] && r.review.messages == []
      ensures r.review.messages == [] || r.review == ReviewOf(r.review.messages[0])
      // uncertain if and only if some message's delivery is unknown, and then the review holds that message
      ensures Doubted(calls) == Doubted(old(calls)) + r.review.messages
      ensures r.failure == Some(Uncertain) <==> r.review.messages != []
      ensures BookOf(calls) == BookOf(old(calls)) && SameFetches(old(calls), calls)
      ensures if count > 0 then old(calls) < calls else calls == old(calls) && r.sent == 0 && r.failure.None?
      ensures r.failure in {None, Some(Revoked), Some(Plain), Some(Unsent), Some(Uncertain)}
      ensures r.failure == Some(Plain) ==> CardMessage(card, render).None?
      ensures r.failure == Some(Revoked) ==> calls[|calls| - 1] == Check(false)
      ensures r.failure == Some(Unsent) ==>
                && CardMessage(card, render).Some?
                && calls[|calls| - 1] in {Check(false), Deliver(CardMessage(card, render).value, NotSent)}
      ensures r.failure == Some(Uncertain) ==>
                CardMessage(card, render).Some? && calls[|calls| - 1] == Deliver(CardMessage(card, render).value, Unknown)
    {
      hide Confirmed, Doubted, BookOf, Proper, Blank, Fetched, Claimed, Contents, Open, Closed, TradeText, AppendTradeText, Pictures;
      ghost var from := |calls|;
      var sent: nat := 0;
      var proof := NO_PROOF.(expectedUnits := count);
      OpenAtStart(calls);
      NoMessages();
      for i := 0 to Max0(count)
        invariant sent == i && old(calls) <= calls && Proper(calls, render) && Open(calls, from)
        invariant BookOf(calls) == BookOf(old(calls)) && SameFetches(old(calls), calls)
        invariant Confirmed(calls) == Confirmed(old(calls)) + proof.messages && Doubted(calls) == Doubted(old(calls)) + []
        invariant Coherent(proof) && proof == NO_PROOF.(expectedUnits := count, preparedUnits := sent,
                    messages := proof.messages, tradeText := proof.tradeText, picList := proof.picList)
        invariant CardMessage(card, render).None? ==> i == 0
        invariant |proof.messages| == sent && (if i > 0 then old(calls) < calls else calls == old(calls))
        invariant forall i :: 0 <= i < sent ==> CardMessage(card, render) == Some(proof.messages[i])
      {
        var ok := CheckExecution(from);
        if !ok { return Result(sent, proof, NO_PROOF, Some(Revoked)); }
        var message := CardMessage(card, render);
        if message.None? { return Result(sent, proof, NO_PROOF, Some(Plain)); }
        var s := Send(message.value, from);
        match s {
          case NotSent => return Result(sent, proof, NO_PROOF, Some(Unsent));
          case Unknown => return Result(sent, proof, UnknownMessage(message.value), Some(Uncertain));
          case Sent =>
        }
        MessageExtendsProof(proof.messages, message.value);
        if message.value.TextMessage? {
          proof := proof.(tradeText := AppendTradeText(proof.tradeText, message.value.content));
        } else {
          proof := proof.(picList := proof.picList + [message.value.content]);
        }
        sent := sent + 1;
        proof := proof.(messages := proof.messages + [message.value], preparedUnits := proof.preparedUnits + 1);
      }
      Discipline(calls, from, Check(true));
      r := Result(sent, proof, NO_PROOF, None);
    }

    // ---- the action ----

    /** `sendCardWithProof`; `card` is the stored card, if it can be read. */
    method SendCard(matches: bool, cardID: int, deliveryCount: int, quantity: string, card: Option<Card>, hasFetcher: bool)
      returns (r: Result)
      requires Proper(calls, render) && BookOf(calls).held == []
      modifies this
      ensures old(calls) <= calls && Proper(calls, render) && BookOf(calls).held == [] && Closed(calls, |old(calls)|)
      ensures !matches ==> r == Result(0, NO_PROOF, NO_PROOF, None) && calls == old(calls)
      ensures Confirmed(calls) == Confirmed(old(calls)) + r.proof.messages && Coherent(r.proof)
      ensures r.proof.preparedUnits == |r.proof.messages| <= r.sent && r.proof.unknownUnits == 0 && r.proof.skips == []
      ensures 0 <= r.sent <= Max0(r.proof.expectedUnits)
      ensures r.review.unknownUnits == |r.review.messages| <= 1 && r.review.preparedUnits == r.review.expectedUnits == 0
      ensures !r.review.refillPending && r.review.skips == []
      ensures r.proof.refillPending || r.review.messages != [] ==> r.failure == Some(Uncertain)
      ensures r.proof.expectedUnits in {0, SendCount(deliveryCount, quantity)}
      ensures matches && r.failure.None? ==>
                && r.proof.expectedUnits == SendCount(deliveryCount, quantity)
                && r.sent == Max0(SendCount(deliveryCount, quantity))
      ensures r.failure.Some? && r.proof.expectedUnits > 0 ==> r.sent < r.proof.expectedUnits
      // the review is the proof of its one message, which is what is in doubt
      ensures r.review.messages == [] || r.review == ReviewOf(r.review.messages[0])
      ensures Doubted(calls) == Doubted(old(calls)) + r.review.messages
              || (Doubted(calls) == Doubted(old(calls)) && card.Some? && card.value.kind == "api")
      // a text or an image card sends nothing but its rendered text or its picture
      ensures card.Some? && card.value.kind == "text" ==>
                forall m :: m in r.proof.messages || m in r.review.messages ==>
                  m == TextMessage(render(card.value.text)) && !Blank(card.value.text)
      ensures card.Some? && card.value.kind == "image" ==>
                forall m :: m in r.proof.messages || m in r.review.messages ==>
                  m == ImageMessage(card.value.image) && !Blank(card.value.image)
      ensures card.Some? && card.value.kind !in {"text", "image", "data", "api"} ==>
                r.proof.messages == r.review.messages == [] && !r.proof.refillPending
      ensures var count := SendCount(deliveryCount, quantity);
              matches && 0 < cardID && card.Some? && card.value.enabled && card.value.kind !in {"data", "api"} && 0 < count
              && !(card.value.kind == "text" && !Blank(card.value.text)) && !(card.value.kind == "image" && !Blank(card.value.image)) ==>
                || (calls == old(calls) + [Check(true)] && r.failure == Some(Plain))
                || (calls == old(calls) + [Check(false)] && r.failure == Some(Revoked))
      // an action that can run is run by the sender for its card's kind
      ensures var count := SendCount(deliveryCount, quantity);
              matches && 0 < cardID && card.Some? && card.value.enabled && (card.value.kind == "api" ==> hasFetcher) ==>
                && (if 0 < count then old(calls) < calls else calls == old(calls) && r.sent == 0 && r.failure.None?)
                && Grows(BookOf(old(calls)), BookOf(calls))
                && (if card.value.kind == "data" then DataResult(r, Gain(BookOf(old(calls)), BookOf(calls)), count, render)
                    else if card.value.kind == "api" then ApiResult(r, Claimed(calls) - Claimed(old(calls)), count)
                    else FixedResult(r, CardMessage(card.value, render), count))
    {
      hide Confirmed, Doubted, BookOf, Proper, Blank, Fetched, Claimed, Contents, TradeText, AppendTradeText, Pictures, SendCount, Guarded, Fenced;
      hide DataResult, ApiResult, FixedResult;
      NothingDone(calls, render);
      if !matches { return Result(0, NO_PROOF, NO_PROOF, None); }
      if cardID <= 0 { return Result(0, NO_PROOF, NO_PROOF, Some(Plain)); }
      var count := SendCount(deliveryCount, quantity);
      if card.None? || !card.value.enabled { return Result(0, NO_PROOF, NO_PROOF, Some(Plain)); }
      if card.value.kind == "data" {
        r := SendDataCard(count);
        DataResultIsBounded(r, Gain(BookOf(old(calls)), BookOf(calls)), count, render);
      } else if card.value.kind == "api" {
        if !hasFetcher { return Result(0, NO_PROOF, NO_PROOF, Some(Plain)); }
        r := SendApiCard(count);
        ApiResultIsBounded(r, Claimed(calls) - Claimed(old(calls)), count);
      } else {
        r := SendFixedCard(card.value, count);
        FixedResultIsBounded(r, CardMessage(card.value, render), count);
      }
    }
  }

  /** What the result of every card sender satisfies. */
  predicate Bounded(r: Result, count: int) {
    && Coherent(r.proof) && r.proof.skips == [] && r.proof.unknownUnits == 0 && r.proof.expectedUnits == count
    && r.proof.preparedUnits == |r.proof.messages| <= r.sent <= Max0(count)
    && r.review.unknownUnits == |r.review.messages| <= 1 && r.review.preparedUnits == r.review.expectedUnits == 0
    && !r.review.refillPending && r.review.skips == [] && (r.review.messages == [] ==> r.review == NO_PROOF)
    && (r.proof.refillPending || r.review.messages != [] ==> r.failure == Some(Uncertain))
    && (r.failure.None? <==> r.sent == Max0(count))
  }

  lemma DataResultIsBounded(r: Result, gain: Book, count: int, render: string -> string)
    requires DataResult(r, gain, count, render)
    ensures Bounded(r, count) && gain.held == []
    ensures r.review.messages == [] || r.review == ReviewOf(r.review.messages[0])
  {}

  lemma ApiResultIsBounded(r: Result, claimed: int, count: int)
    requires ApiResult(r, claimed, count)
    ensures Bounded(r, count)
    ensures r.review.messages == [] || r.review == ReviewOf(r.review.messages[0])
  {}

  lemma FixedResultIsBounded(r: Result, m: Option<Message>, count: int)
    requires FixedResult(r, m, count)
    ensures Bounded(r, count)
  {}

  lemma NothingDone(calls: seq<Call>, render: string -> string)
    ensures Closed(calls, |calls|) && Coherent(NO_PROOF) && Confirmed(calls) + [] == Confirmed(calls)
  {}

  /** Units `1` to `n`, in order, were requested. */
  predicate FetchedUnits(before: seq<Call>, calls: seq<Call>, n: nat) {
    Fetched(calls) == Fetched(before) + Range(1, n)
  }

  lemma FetchedNext(start: seq<Call>, before: seq<Call>, calls: seq<Call>, n: nat)
    requires FetchedUnits(start, before, n)
    ensures Fetched(calls) == Fetched(before) ==> FetchedUnits(start, calls, n)
    ensures Fetched(calls) == Fetched(before) + [n + 1] ==> FetchedUnits(start, calls, n + 1)
  {
    assert Range(1, n) + [n + 1] == Range(1, n + 1);
  }

  /** What one unit of the API sender did: it requested the unit at most once; a delivered unit was
    * requested, claimed, handed over and confirmed; of a stopped one the review holds what was handed over,
    * and it is uncertain if a card may have been used up.
    */
  ghost predicate ApiUnitDone(before: seq<Call>, calls: seq<Call>, unit: int, step: ApiStep) {
    && (Fetched(calls) == Fetched(before) + [unit] || (step.ApiStopped? && Fetched(calls) == Fetched(before)))
    && Confirmed(calls) == Confirmed(before) + (if step.ApiDelivered? then [TextMessage(step.text)] else [])
    && Contents(calls) == Contents(before) + (if step.ApiDelivered? then [step.text] else Texts(step.review.messages))
    && Claimed(calls) == Claimed(before) + (if step.ApiDelivered? || step.failure.Uncertain? then 1 else 0)
    && (step.ApiStopped? ==>
          step.review == NO_PROOF || (step.failure.Uncertain? && step.review == UnknownText(step.review.tradeText)))
  }

  /** How a unit may end after this reply, or after no request at all. */
  predicate FitsReply(reply: Option<Reply>, step: ApiStep) {
    match reply
    case None => step.ApiStopped? && step.review == NO_PROOF && !step.failure.Uncertain?
    case Some(FetchFailed(dispatched)) => step == ApiStopped(if dispatched then Uncertain else NoRetry, NO_PROOF)
    case Some(Content(text)) =>
      if Blank(text) then step == ApiStopped(Uncertain, NO_PROOF)
      else step == ApiDelivered(text) || step == ApiStopped(Uncertain, UnknownText(text))
  }

  /** A unit is done when the record grew by its request, its reply and what was confirmed of it. */
  lemma UnitIsDone(before: seq<Call>, calls: seq<Call>, unit: int, reply: Option<Reply>, step: ApiStep)
    requires Fetched(calls) == Fetched(before) + if reply.Some? then [unit] else []
    requires Claimed(calls) == Claimed(before) + if reply.Some? && (reply.value.Content? || reply.value.dispatched) then 1 else 0
    requires Contents(calls)
          == Contents(before) + if reply.Some? && reply.value.Content? && !Blank(reply.value.text) then [reply.value.text] else []
    requires Confirmed(calls) == Confirmed(before) + if step.ApiDelivered? then [TextMessage(step.text)] else []
    requires FitsReply(reply, step)
    ensures ApiUnitDone(before, calls, unit, step)
  {
    hide Confirmed, Fetched, Contents, Claimed, Blank;
    if reply.Some? && reply.value.Content? { OneText(reply.value.text); }
  }

  /** The record and the proof after some delivered units. */
  ghost predicate ApiSoFar(start: seq<Call>, calls: seq<Call>, p: Proof, sent: nat, count: int) {
    && FetchedUnits(start, calls, sent) && Confirmed(calls) == Confirmed(start) + p.messages
    && Contents(calls) == Contents(start) + Texts(p.messages) && Claimed(calls) == Claimed(start) + sent
    && ApiProof(p, sent, count)
  }

  lemma NothingFromApi(calls: seq<Call>, count: int)
    ensures ApiSoFar(calls, calls, NO_PROOF.(expectedUnits := count), 0, count)
  {
    hide Confirmed, Fetched, Contents, Claimed;
  }

  lemma ApiAdvances(start: seq<Call>, before: seq<Call>, calls: seq<Call>, p: Proof, sent: nat, count: int, step: ApiStep)
    requires ApiSoFar(start, before, p, sent, count) && ApiUnitDone(before, calls, sent + 1, step) && sent < Max0(count)
    ensures step.ApiDelivered? ==>
              ApiSoFar(start, calls, p.(tradeText := AppendTradeText(p.tradeText, step.text),
                                        messages := p.messages + [TextMessage(step.text)],
                                        preparedUnits := p.preparedUnits + 1), sent + 1, count)
    ensures step.ApiStopped? ==>
              && Confirmed(calls) == Confirmed(start) + p.messages
              && Contents(calls) == Contents(start) + Texts(p.messages + step.review.messages)
              && ApiResult(Result(sent, p, step.review, Some(step.failure)), Claimed(calls) - Claimed(start), count)
              && (FetchedUnits(start, calls, sent) || FetchedUnits(start, calls, sent + 1))
  {
    hide Confirmed, Fetched, Contents, Claimed, FetchedUnits, ApiProof, ApiResult, Texts, AppendTradeText;
    FetchedNext(start, before, calls, sent);
    if step.ApiStopped? {
      PartsOf(p.messages, step.review.messages);
      StoppedIsApiResult(p, sent, count, step);
    } else {
      ApiProofGrows(p, sent, count, step.text);
    }
  }

  lemma ApiCompletes(start: seq<Call>, calls: seq<Call>, p: Proof, sent: nat, count: int)
    requires ApiSoFar(start, calls, p, sent, count) && sent == Max0(count)
    ensures Confirmed(calls) == Confirmed(start) + p.messages
    ensures Contents(calls) == Contents(start) + Texts(p.messages + NO_PROOF.messages)
    ensures ApiResult(Result(sent, p, NO_PROOF, None), Claimed(calls) - Claimed(start), count)
    ensures FetchedUnits(start, calls, sent)
  {
    hide Confirmed, Fetched, Contents, Claimed, FetchedUnits, ApiProof, ApiResult, Texts;
    assert p.messages + NO_PROOF.messages == p.messages;
    CompletedIsApiResult(p, sent, count);
  }

  /** The proof of the API sender after some units. */
  ghost predicate ApiProof(p: Proof, sent: nat, count: int) {
    && p == NO_PROOF.(expectedUnits := count, preparedUnits := sent, messages := p.messages, tradeText := TradeText(p.messages))
    && |p.messages| == sent && Pictures(p.messages) == []
    && forall i :: 0 <= i < sent ==> p.messages[i].TextMessage?
  }

  lemma ApiProofGrows(p: Proof, sent: nat, count: int, text: string)
    requires ApiProof(p, sent, count)
    ensures ApiProof(p.(tradeText := AppendTradeText(p.tradeText, text), messages := p.messages + [TextMessage(text)],
                        preparedUnits := p.preparedUnits + 1), sent + 1, count)
    ensures Texts(p.messages + [TextMessage(text)]) == Texts(p.messages) + [text]
  {
    hide TradeText, AppendTradeText;
    MessageExtendsProof(p.messages, TextMessage(text));
    PartsOf(p.messages, [TextMessage(text)]);
    OneText(text);
  }

  lemma StoppedIsApiResult(p: Proof, sent: nat, count: int, step: ApiStep)
    requires ApiProof(p, sent, count) && step.ApiStopped? && sent < Max0(count)
    requires step.review == NO_PROOF || (step.failure.Uncertain? && step.review == UnknownText(step.review.tradeText))
    ensures ApiResult(Result(sent, p, step.review, Some(step.failure)), sent + if step.failure.Uncertain? then 1 else 0, count)
  {}

  lemma CompletedIsApiResult(p: Proof, sent: nat, count: int)
    requires ApiProof(p, sent, count) && sent == Max0(count)
    ensures ApiResult(Result(sent, p, NO_PROOF, None), sent, count)
  {}

  lemma NoMessages()
    ensures TradeText([]) == "" && Pictures([]) == [] && Coherent(NO_PROOF)
  {}

  lemma OneText(text: string)
    ensures Texts([TextMessage(text)]) == [text] && Pictures([TextMessage(text)]) == []
  {}

  lemma MessageExtendsProof(messages: seq<Message>, m: Message)
    ensures var next := messages + [m];
            if m.TextMessage? then TradeText(next) == AppendTradeText(TradeText(messages), m.content) && Pictures(next) == Pictures(messages)
            else TradeText(next) == TradeText(messages) && Pictures(next) == Pictures(messages) + [m.content]
  {
    PartsOf(messages, [m]);
    if m.TextMessage? {
      AppendBuildsTradeText(messages, m.content);
    } else {
      assert Texts([m]) == [] && Texts(messages) + [] == Texts(messages);
    }
  }

  lemma GainOfFinished(b: Book, delivered: seq<string>, blank: seq<string>)
    requires b.held == []
    ensures var after := b.(delivered := b.delivered + delivered, blank := b.blank + blank);
            Grows(b, after) && Gain(b, after) == EMPTY.(delivered := delivered, blank := blank)
  {}

  lemma OneMore(b: Book, delivered: seq<string>, blank: seq<string>, step: DataStep)
    ensures var before := b.(delivered := b.delivered + delivered, blank := b.blank + blank);
            && (step.Delivered? ==> AfterStep(before, step) == b.(delivered := b.delivered + (delivered + [step.line]), blank := b.blank + blank))
            && (step.Skipped? ==> AfterStep(before, step) == b.(delivered := b.delivered + delivered, blank := b.blank + (blank + [step.line])))
            && (step.Refused? ==> AfterStep(before, step) == before)
            && AfterStep(before, step).held == b.held
  {
    assert step.Delivered? ==> b.delivered + delivered + [step.line] == b.delivered + (delivered + [step.line]);
    assert step.Skipped? ==> b.blank + blank + [step.line] == b.blank + (blank + [step.line]);
  }

  /** The gain of some finished units and one more step. */
  lemma GainOf(b: Book, delivered: seq<string>, blank: seq<string>, step: DataStep)
    requires b.held == []
    ensures var after := AfterStep(b.(delivered := b.delivered + delivered, blank := b.blank + blank), step);
            Grows(b, after) && Gain(b, after) == AfterStep(EMPTY.(delivered := delivered, blank := blank), step)
  {}

  /** The proof after some delivered lines. */
  ghost predicate DataProof(p: Proof, delivered: seq<string>, count: int, render: string -> string) {
    && p.messages == Rendered(delivered, render)
    && p == NO_PROOF.(expectedUnits := count, preparedUnits := |delivered|, messages := p.messages,
                      tradeText := TradeText(p.messages))
  }

  lemma OpenAtStart(calls: seq<Call>)
    ensures Open(calls, |calls|)
  {}

  lemma NothingSent(count: int, render: string -> string)
    ensures DataProof(NO_PROOF.(expectedUnits := count), [], count, render)
  {}

  lemma ProofGrows(p: Proof, delivered: seq<string>, count: int, render: string -> string, line: string)
    requires DataProof(p, delivered, count, render)
    ensures DataProof(p.(tradeText := AppendTradeText(p.tradeText, render(line)),
                         messages := p.messages + [TextMessage(render(line))],
                         preparedUnits := p.preparedUnits + 1), delivered + [line], count, render)
  {
    hide TradeText, AppendTradeText;
    AppendBuildsTradeText(p.messages, render(line));
    assert Rendered(delivered + [line], render) == Rendered(delivered, render) + [TextMessage(render(line))];
  }

  lemma {:induction false} TextsHaveNoPictures(lines: seq<string>, render: string -> string)
    ensures Pictures(Rendered(lines, render)) == []
  {
    if lines != [] {
      TextsHaveNoPictures(lines[1..], render);
      assert Rendered(lines, render)[1..] == Rendered(lines[1..], render);
    }
  }

  lemma CompletedIsDataResult(p: Proof, delivered: seq<string>, blank: seq<string>, count: int, render: string -> string)
    requires DataProof(p, delivered, count, render) && |delivered| + |blank| == Max0(count)
    ensures DataResult(Result(Max0(count), p, NO_PROOF, None), EMPTY.(delivered := delivered, blank := blank), count, render)
  {
    TextsHaveNoPictures(delivered, render);
  }

  lemma StoppedIsDataResult(p: Proof, delivered: seq<string>, blank: seq<string>, count: int, render: string -> string, step: DataStep)
    requires DataProof(p, delivered, count, render) && |delivered| + |blank| < Max0(count)
    requires !step.Delivered? && !step.Skipped? && (step.Refused? ==> step.failure.Revoked? || step.failure.Plain?)
    ensures DataResult(StoppedResult(|delivered| + |blank|, p, step, render),
                       AfterStep(EMPTY.(delivered := delivered, blank := blank), step), count, render)
  {
    TextsHaveNoPictures(delivered, render);
  }
}
