/** The stock of a data card: one text column whose non-blank lines are the cards, taken and put back
  * by compare-and-set while other connections write the same column.
  */
module CardStock {
  import opened Options
  import opened GoStrings

  // ---- the column as lines ----

  predicate IsBreak(c: char) {
    c == '\n' || c == '\r'
  }

  /** The pieces between line breaks, `current` being the piece read so far. */
  function Pieces(s: string, current: string): seq<string> {
    if s == [] then (if current == [] then [] else [current])
    else if IsBreak(s[0]) then [current] + Pieces(s[1..], [])
    else Pieces(s[1..], current + [s[0]])
  }

  function NonBlank(lines: seq<string>): (r: seq<string>)
    ensures forall i :: 0 <= i < |r| ==> r[i] in lines && !Blank(r[i])
  {
    if lines == [] then [] else (if Blank(lines[0]) then [] else [lines[0]]) + NonBlank(lines[1..])
  }

  /** `splitLines`: the cards of a column. */
  function Lines(content: string): (r: seq<string>)
    ensures forall i :: 0 <= i < |r| ==> !Blank(r[i])
  {
    NonBlank(Pieces(content, []))
  }

  predicate OneLine(s: string) {
    forall i :: 0 <= i < |s| ==> !IsBreak(s[i])
  }

  lemma {:induction false} PiecesAreLines(s: string, current: string)
    requires OneLine(current)
    ensures forall i :: 0 <= i < |Pieces(s, current)| ==> OneLine(Pieces(s, current)[i])
    decreases |s|
  {
    if s != [] {
      PiecesAreLines(s[1..], if IsBreak(s[0]) then [] else current + [s[0]]);
    }
  }

  lemma LinesAreLines(content: string)
    ensures forall i :: 0 <= i < |Lines(content)| ==> OneLine(Lines(content)[i])
  {
    PiecesAreLines(content, []);
  }

  lemma {:induction false} PiecesOfLine(line: string, current: string, rest: string)
    requires OneLine(line)
    ensures Pieces(line + "\n" + rest, current) == [current + line] + Pieces(rest, [])
    decreases |line|
  {
    var all := line + "\n" + rest;
    if line == [] {
      assert all[1..] == rest && current + line == current;
    } else {
      assert all[1..] == line[1..] + "\n" + rest;
      PiecesOfLine(line[1..], current + [line[0]], rest);
      assert current + [line[0]] + line[1..] == current + line;
    }
  }

  lemma {:induction false} PiecesOfLastLine(line: string, current: string)
    requires OneLine(line) && current + line != []
    ensures Pieces(line, current) == [current + line]
    decreases |line|
  {
    if line != [] {
      PiecesOfLastLine(line[1..], current + [line[0]]);
      assert current + [line[0]] + line[1..] == current + line;
    } else {
      assert current + line == current;
    }
  }

  /** A line put in front of a column becomes its first card. */
  lemma LinesOfPrepended(line: string, rest: string)
    requires OneLine(line) && !Blank(line)
    ensures Lines(line + "\n" + rest) == [line] + Lines(rest)
    ensures Lines(line) == [line]
  {
    PiecesOfLine(line, [], rest);
    PiecesOfLastLine(line, []);
    assert [] + line == line;
    assert NonBlank([line]) == [line] + NonBlank([line][1..]);
    assert ([line] + Pieces(rest, []))[1..] == Pieces(rest, []);
  }

  /** Joining cards and splitting again gives the same cards. */
  lemma {:induction false} LinesOfJoined(lines: seq<string>)
    requires forall i :: 0 <= i < |lines| ==> OneLine(lines[i]) && !Blank(lines[i])
    ensures Lines(Join(lines)) == lines
  {
    if lines != [] {
      LinesOfPrepended(lines[0], Join(lines[1..]));
      LinesOfJoined(lines[1..]);
    }
  }

  /** Line feeds and carriage returns separate cards. */
  lemma LinesOfParts(a: string, c: char, b: string)
    requires c == '\n' || c == '\r'
    ensures Lines(a + [c] + b) == Lines(a) + Lines(b)
  {
    hide Blank;
    PiecesOfParts(a, c, b, []);
  }

  lemma {:induction false} PiecesOfParts(a: string, c: char, b: string, current: string)
    requires c == '\n' || c == '\r'
    ensures NonBlank(Pieces(a + [c] + b, current)) == NonBlank(Pieces(a, current)) + NonBlank(Pieces(b, []))
    decreases |a|
  {
    hide Blank, Pieces, NonBlank;
    var all := a + [c] + b;
    PiecesOfFirst(all, current);
    PiecesOfFirst(a, current);
    if a == "" {
      assert all[1..] == b;
      LastPieceIsKept(current, Pieces(b, []));
    } else {
      assert all[1..] == a[1..] + [c] + b;
      if IsBreak(a[0]) {
        PiecesOfParts(a[1..], c, b, []);
        PieceGoesFirst(current, Pieces(all[1..], []), Pieces(a[1..], []), NonBlank(Pieces(b, [])));
      } else {
        PiecesOfParts(a[1..], c, b, current + [a[0]]);
      }
    }
  }

  lemma LastPieceIsKept(current: string, rest: seq<string>)
    ensures NonBlank([current] + rest) == NonBlank(if current == "" then [] else [current]) + NonBlank(rest)
  {
    hide Blank;
    BlankMeansSpaces("");
    NonBlankOfFirst(current, rest);
    NonBlankOfFirst(current, []);
  }

  lemma PieceGoesFirst(current: string, all: seq<string>, first: seq<string>, second: seq<string>)
    requires NonBlank(all) == NonBlank(first) + second
    ensures NonBlank([current] + all) == NonBlank([current] + first) + second
  {
    hide Blank, NonBlank;
    NonBlankOfFirst(current, all);
    NonBlankOfFirst(current, first);
    PartsRegroup(if Blank(current) then [] else [current], NonBlank(first), second);
  }

  lemma PartsRegroup(a: seq<string>, b: seq<string>, c: seq<string>)
    ensures a + (b + c) == a + b + c
  {}

  lemma PiecesOfFirst(s: string, current: string)
    ensures Pieces(s, current) ==
            if s == "" then (if current == "" then [] else [current])
            else if IsBreak(s[0]) then [current] + Pieces(s[1..], "")
            else Pieces(s[1..], current + [s[0]])
  {}

  lemma NonBlankOfFirst(line: string, rest: seq<string>)
    ensures NonBlank([line] + rest) == (if Blank(line) then [] else [line]) + NonBlank(rest) && NonBlank([]) == []
    ensures [line] + [] == [line]
  {
    hide Blank;
    assert ([line] + rest)[1..] == rest;
  }

  /** Text without them is one card, unless it consists of white space. */
  lemma LinesOfOneLine(line: string)
    requires forall i :: 0 <= i < |line| ==> line[i] != '\n' && line[i] != '\r'
    ensures Lines(line) == if forall i :: 0 <= i < |line| ==> IsSpace(line[i]) then [] else [line]
  {
    hide Lines, Blank;
    BlankMeansSpaces(line);
    if Blank(line) { BlankHasNoLines(line); } else { LinesOfPrepended(line, ""); }
  }

  lemma {:induction false} BlankPieces(s: string, current: string)
    requires forall i :: 0 <= i < |s| ==> IsSpace(s[i])
    requires forall i :: 0 <= i < |current| ==> IsSpace(current[i])
    ensures NonBlank(Pieces(s, current)) == []
    decreases |s|
  {
    BlankMeansSpaces(current);
    if s != [] {
      if IsBreak(s[0]) {
        BlankPieces(s[1..], []);
        assert ([current] + Pieces(s[1..], []))[1..] == Pieces(s[1..], []);
      } else {
        BlankPieces(s[1..], current + [s[0]]);
      }
    }
  }

  lemma BlankHasNoLines(content: string)
    requires Blank(content)
    ensures Lines(content) == []
  {
    BlankMeansSpaces(content);
    BlankPieces(content, []);
  }

  lemma TrimKeepsLine(line: string)
    requires OneLine(line)
    ensures OneLine(Trim(line))
  {
    TrimLeftKeepsLine(line);
  }

  lemma {:induction false} TrimLeftKeepsLine(line: string)
    requires OneLine(line)
    ensures OneLine(TrimLeft(line))
  {
    if line != [] && IsSpace(line[0]) {
      TrimLeftKeepsLine(line[1..]);
    }
  }

  // ---- the row over time ----

  /** Who wrote a version of the column. */
  datatype Writer = Other | Taker(line: string) | Putter(line: string)

  /** A version of the column; a null column reads as the empty text. */
  datatype Version = Version(content: string, writer: Writer)

  /** A take removes exactly the first card, a put adds exactly its trimmed text in front. */
  ghost predicate Follows(before: string, v: Version) {
    match v.writer
    case Other => true
    case Taker(line) => OneLine(line) && Lines(before) == [line] + Lines(v.content)
    case Putter(line) => OneLine(line) ==> Lines(v.content) == [Trim(line)] + Lines(before)
  }

  ghost predicate Consistent(history: seq<Version>) {
    history != [] && forall i :: 0 < i < |history| ==> Follows(history[i - 1].content, history[i])
  }

  /** The writes among some versions that are not of other connections. */
  function Own(versions: seq<Version>): seq<Writer> {
    if versions == [] then []
    else
      var v := versions[|versions| - 1];
      Own(versions[..|versions| - 1]) + if v.writer.Other? then [] else [v.writer]
  }

  function Takers(lines: seq<string>): seq<Writer> {
    seq(|lines|, i requires 0 <= i < |lines| => Taker(lines[i]))
  }

  function Copies(line: string, n: nat): seq<string> {
    seq(n, i => line)
  }

  function Putters(line: string, n: nat): seq<Writer> {
    seq(n, i => Putter(line))
  }

  lemma {:induction false} OwnOfParts(a: seq<Version>, b: seq<Version>)
    ensures Own(a + b) == Own(a) + Own(b)
  {
    if b == [] {
      assert a + b == a;
    } else {
      var n := |b| - 1;
      assert (a + b)[..|a| + n] == a + b[..n] && (a + b)[|a| + n] == b[n];
      OwnOfParts(a, b[..n]);
    }
  }

  /** The writes of ours after the first `|before|` versions. */
  function OwnSince(before: seq<Version>, after: seq<Version>): seq<Writer>
    requires before <= after
  {
    Own(after[|before|..])
  }

  lemma SinceGrows(a: seq<Version>, b: seq<Version>, c: seq<Version>)
    requires a <= b <= c
    ensures OwnSince(a, c) == OwnSince(a, b) + OwnSince(b, c)
  {
    OwnOfParts(b[|a|..], c[|b|..]);
    assert c[|a|..] == b[|a|..] + c[|b|..];
  }

  lemma SinceOneMore(before: seq<Version>, v: Version)
    ensures OwnSince(before, before + [v]) == if v.writer.Other? then [] else [v.writer]
  {
    assert (before + [v])[|before|..] == [v];
    assert Own([v][..0]) == [];
  }

  lemma NothingSince(history: seq<Version>)
    ensures OwnSince(history, history) == [] && Takers([]) == []
    ensures forall line :: Putters(line, 0) == []
  {}

  lemma WritersOfParts(a: seq<string>, b: seq<string>, line: string, m: nat, n: nat)
    ensures Takers(a + b) == Takers(a) + Takers(b)
    ensures Putters(line, m + n) == Putters(line, m) + Putters(line, n)
  {}

  lemma TakersOfOne()
    ensures forall line :: Takers([line]) == [Taker(line)]
  {}

  lemma PuttersOfOne(line: string)
    ensures Putters(line, 1) == [Putter(line)]
  {}

  // ---- what takes and puts do, statement by statement ----

  /** How an update ends: it reports the number of rows; it reports an error and did nothing; it reports
    * an error although it took effect; it took effect, but the number of rows cannot be read.
    */
  datatype Update = Counted | NoEffect | Unreported | Uncounted

  /** Which reads fail, how updates end, and what other connections write before a statement of ours, by
    * the statement's number.
    */
  datatype Database = Database(fails: nat -> bool, updates: nat -> Update, others: nat -> seq<string>)

  datatype Taken = Card(line: string) | TakeFailed

  datatype Swap = Swapped | TryAgain | SwapFailed

  /** The column when statement `n` runs. */
  function Seen(db: Database, content: string, n: nat): string {
    var writes := db.others(n);
    if writes == [] then content else writes[|writes| - 1]
  }

  /** What the caller makes of an update; `same` if the column was still the one read. */
  function SwapOf(update: Update, same: bool): Swap {
    match update
    case Counted => if same then Swapped else TryAgain
    case Uncounted => TryAgain
    case _ => SwapFailed
  }

  function Rest(lines: seq<string>): string
    requires lines != []
  {
    if |lines| > 1 then Join(lines[1..]) else ""
  }

  function InFront(line: string, content: string): string {
    if Blank(content) then Trim(line) else Trim(line) + "\n" + content
  }

  /** One attempt of a take: its answer unless it tries again, the lines it removed, the column after it,
    * and the next statement.
    */
  datatype Attempt = Attempt(answer: Option<Taken>, lines: seq<string>, content: string, next: nat)

  function TakeOnce(db: Database, content: string, n: nat): Attempt {
    var snapshot := Seen(db, content, n);
    var lines := Lines(snapshot);
    if db.fails(n) || lines == [] then Attempt(Some(TakeFailed), [], snapshot, n + 1)
    else
      var now := Seen(db, snapshot, n + 1);
      var removes := now == snapshot && !db.updates(n + 1).NoEffect?;
      var answer :=
        match SwapOf(db.updates(n + 1), now == snapshot)
        case Swapped => Some(Card(lines[0]))
        case SwapFailed => Some(TakeFailed)
        case TryAgain => None;
      Attempt(answer, if removes then [lines[0]] else [], if removes then Rest(lines) else now, n + 2)
  }

  /** A whole take. */
  datatype Taking = Taking(answer: Taken, lines: seq<string>, content: string, next: nat)

  /** The take that starts with statement `n`, with `left` attempts left. */
  function TakeFrom(db: Database, content: string, n: nat, left: nat): Taking
    decreases left
  {
    if left == 0 then Taking(TakeFailed, [], content, n)
    else
      var a := TakeOnce(db, content, n);
      match a.answer
      case Some(answer) => Taking(answer, a.lines, a.content, a.next)
      case None => After(a.lines, TakeFrom(db, a.content, a.next, left - 1))
  }

  function After(lines: seq<string>, t: Taking): Taking {
    t.(lines := lines + t.lines)
  }

  /** The cards that a take removed without returning them. */
  function Unreturned(t: Taking): seq<string> {
    if t.answer.Card? && t.lines != [] then t.lines[..|t.lines| - 1] else t.lines
  }

  /** One attempt of a restore, or all of it: the answer, how often it put the line in front, the column
    * after it, and the next statement.
    */
  datatype Putting<T> = Putting(answer: T, copies: nat, content: string, next: nat)

  function PutOnce(db: Database, line: string, content: string, n: nat): Putting<Option<bool>> {
    var snapshot := Seen(db, content, n);
    if db.fails(n) then Putting(Some(false), 0, snapshot, n + 1)
    else
      var now := Seen(db, snapshot, n + 1);
      var puts := now == snapshot && !db.updates(n + 1).NoEffect?;
      var answer :=
        match SwapOf(db.updates(n + 1), now == snapshot)
        case Swapped => Some(true)
        case SwapFailed => Some(false)
        case TryAgain => None;
      Putting(answer, if puts then 1 else 0, if puts then InFront(line, snapshot) else now, n + 2)
  }

  /** The restore that starts with statement `n`, with `left` attempts left. */
  function PutFrom(db: Database, line: string, content: string, n: nat, left: nat): Putting<bool>
    decreases left
  {
    if left == 0 then Putting(false, 0, content, n)
    else
      var a := PutOnce(db, line, content, n);
      match a.answer
      case Some(ok) => Putting(ok, a.copies, a.content, a.next)
      case None => More(a.copies, PutFrom(db, line, a.content, a.next, left - 1))
  }

  function More(copies: nat, p: Putting<bool>): Putting<bool> {
    p.(copies := copies + p.copies)
  }

  const ATTEMPTS: nat := 20

  /** No update whose number of rows cannot be read. */
  ghost predicate AllCounted(db: Database, from: nat, to: nat) {
    forall n :: from <= n < to ==> !db.updates(n).Uncounted?
  }

  /** The last statement was an update that reported an error although it took effect. */
  ghost predicate EndsUnreported(db: Database, next: nat) {
    next > 0 && db.updates(next - 1).Unreported?
  }

  /** No other connection writes and no read fails. */
  ghost predicate Quiet(db: Database, from: nat, to: nat) {
    forall n :: from <= n < to ==> db.others(n) == [] && !db.fails(n)
  }

  /** How many updates in a row, at most `left`, take effect without saying so and let the loop go on. */
  function Skipped(db: Database, n: nat, left: nat): (r: nat)
    ensures r <= left
    ensures r < left ==> !db.updates(n + 2 * r + 1).Uncounted?
    decreases left
  {
    if left == 0 || !db.updates(n + 1).Uncounted? then 0 else 1 + Skipped(db, n + 2, left - 1)
  }

  /** A returned card is the last one removed; any other removed card was removed by an update whose
    * number of rows could not be read, or by a last update that reported an error.
    */
  lemma {:induction false} TakeMeans(db: Database, content: string, n: nat, left: nat)
    ensures var t := TakeFrom(db, content, n, left);
            && n <= t.next <= n + 2 * left && |t.lines| <= left
            && (t.answer.Card? ==> t.lines != [] && t.lines[|t.lines| - 1] == t.answer.line && !Blank(t.answer.line))
            && (AllCounted(db, n, t.next) ==> |t.lines| <= 1)
            && (Unreturned(t) != [] && AllCounted(db, n, t.next) ==> t.answer.TakeFailed? && EndsUnreported(db, t.next))
    decreases left
  {
    hide Lines, Blank, Rest, Seen;
    if left > 0 {
      var a := TakeOnce(db, content, n);
      if a.answer.None? { TakeMeans(db, a.content, a.next, left - 1); }
    }
  }

  /** The update of an attempt that starts with statement `n` finds the column as it was read, and takes
    * effect without saying so.
    */
  predicate Unnoticed(db: Database, content: string, n: nat) {
    && !db.fails(n) && Seen(db, Seen(db, content, n), n + 1) == Seen(db, content, n)
    && (db.updates(n + 1).Unreported? || db.updates(n + 1).Uncounted?)
  }

  /** The column before attempt `i` of a take, if the loop gets there. */
  function BeforeTake(db: Database, content: string, n: nat, i: nat): Option<string>
    decreases i
  {
    if i == 0 then Some(content)
    else
      var a := TakeOnce(db, content, n);
      if a.answer.None? then BeforeTake(db, a.content, a.next, i - 1) else None
  }

  /** The loop gets to attempt `k`, which answers. */
  predicate TakeEnds(db: Database, content: string, n: nat, k: nat) {
    BeforeTake(db, content, n, k).Some? && TakeOnce(db, BeforeTake(db, content, n, k).value, n + 2 * k).answer.Some?
  }

  predicate PutEnds(db: Database, line: string, content: string, n: nat, k: nat) {
    BeforePut(db, line, content, n, k).Some? && PutOnce(db, line, BeforePut(db, line, content, n, k).value, n + 2 * k).answer.Some?
  }

  /** The first attempt that answers decides the take. */
  lemma {:induction false} TakeReaches(db: Database, content: string, n: nat, left: nat, k: nat)
    ensures k < left && TakeEnds(db, content, n, k) ==>
              Some(TakeFrom(db, content, n, left).answer) == TakeOnce(db, BeforeTake(db, content, n, k).value, n + 2 * k).answer
    decreases k
  {
    hide TakeOnce, TakeFrom;
    TakeUnfolds(db, content, n, left);
    if 0 < k < left && TakeEnds(db, content, n, k) {
      var a := TakeOnce(db, content, n);
      AttemptSlips(db, content, n);
      assert n + 2 * k == a.next + 2 * (k - 1);
      TakeReaches(db, a.content, a.next, left - 1, k - 1);
    }
  }

  ghost predicate TakeSlips(db: Database, content: string, n: nat, i: nat) {
    match BeforeTake(db, content, n, i)
    case None => false
    case Some(now) => Unnoticed(db, now, n + 2 * i) && Lines(Seen(db, now, n + 2 * i)) != []
  }

  /** A take loses a card exactly if one of its attempts has an unnoticed update. */
  lemma {:induction false} TakeLosesExactly(db: Database, content: string, n: nat, left: nat)
    ensures Unreturned(TakeFrom(db, content, n, left)) != [] <==> exists i :: 0 <= i < left && TakeSlips(db, content, n, i)
    decreases left
  {
    hide TakeFrom, TakeOnce, Unnoticed, Lines;
    TakeUnfolds(db, content, n, left);
    if left > 0 {
      var a := TakeOnce(db, content, n);
      AttemptSlips(db, content, n);
      if a.answer.None? {
        TakeLosesExactly(db, a.content, a.next, left - 1);
        TakeMeans(db, a.content, a.next, left - 1);
        forall i | 0 < i < left ensures TakeSlips(db, content, n, i) <==> TakeSlips(db, a.content, a.next, i - 1) {
          assert n + 2 * i == a.next + 2 * (i - 1);
        }
        assert forall i :: 0 <= i < left - 1 ==> TakeSlips(db, content, n, i + 1) == TakeSlips(db, a.content, a.next, i);
      }
    }
  }

  lemma AttemptSlips(db: Database, content: string, n: nat)
    ensures var a := TakeOnce(db, content, n);
            && (a.answer.None? ==> a.next == n + 2)
            && (TakeSlips(db, content, n, 0) <==>
                  a.lines != [] && !(a.answer.Some? && a.answer.value.Card?))
            && |a.lines| <= 1
            && (a.answer.Some? && a.answer.value.Card? ==> |a.lines| == 1)
  {
    hide Lines, Seen, Rest;
  }

  /** An update that finds the column as it was read and reports an error although it took effect: the
    * take fails, and the first card is gone.
    */
  lemma UnreportedTakeLosesCard(db: Database, content: string, n: nat, left: nat)
    requires left > 0 && !db.fails(n) && db.updates(n + 1).Unreported?
    requires var snapshot := Seen(db, content, n); Seen(db, snapshot, n + 1) == snapshot && Lines(snapshot) != []
    ensures var t := TakeFrom(db, content, n, left);
            && t.answer.TakeFailed? && Unreturned(t) == [Lines(Seen(db, content, n))[0]]
            && Lines(Seen(db, content, n)) == Unreturned(t) + Lines(t.content)
  {
    hide Lines, Seen;
    LinesAreLines(Seen(db, content, n));
    RemainingLines(Lines(Seen(db, content, n)));
  }

  /** The update that ends the loop, if one of the first `left` does. */
  function Closing(db: Database, n: nat, left: nat): Option<Update> {
    var k := Skipped(db, n, left);
    if k < left then Some(db.updates(n + 2 * k + 1)) else None
  }

  /** How many of at most `left` updates take effect if nobody interferes: the leading ones without a number
    * of rows, and the one that ends the loop unless it has no effect.
    */
  function Effective(db: Database, n: nat, left: nat): nat {
    Skipped(db, n, left) + if Closing(db, n, left) in {None, Some(NoEffect)} then 0 else 1
  }

  lemma EffectiveUnfolds(db: Database, n: nat, left: nat)
    requires left > 0
    ensures if db.updates(n + 1).Uncounted? then
              && Skipped(db, n, left) == 1 + Skipped(db, n + 2, left - 1)
              && Closing(db, n, left) == Closing(db, n + 2, left - 1)
              && Effective(db, n, left) == 1 + Effective(db, n + 2, left - 1)
            else
              && Skipped(db, n, left) == 0 && Closing(db, n, left) == Some(db.updates(n + 1))
              && Effective(db, n, left) == if db.updates(n + 1).NoEffect? then 0 else 1
  {
    if db.updates(n + 1).Uncounted? {
      assert n + 2 * Skipped(db, n, left) + 1 == n + 2 + 2 * Skipped(db, n + 2, left - 1) + 1;
    }
  }

  function Most(left: nat, lines: seq<string>): nat {
    if left < |lines| then left else |lines|
  }

  /** The answer, the lines removed and the lines left of a take from `lines` that nobody interferes with. */
  predicate IsQuietTake(db: Database, lines: seq<string>, n: nat, left: nat, answer: Taken, taken: seq<string>, rest: seq<string>) {
    var most := Most(left, lines);
    var k, removed := Skipped(db, n, most), Effective(db, n, most);
    && answer == (if Closing(db, n, most) == Some(Counted) then Card(lines[k]) else TakeFailed)
    && removed <= most && taken == lines[..removed] && rest == lines[removed..]
  }

  /** When nobody interferes the answer and the lines removed are known exactly. */
  lemma {:induction false} QuietTake(db: Database, content: string, n: nat, left: nat)
    requires Quiet(db, n, n + 2 * left)
    ensures var t := TakeFrom(db, content, n, left);
            IsQuietTake(db, Lines(content), n, left, t.answer, t.lines, Lines(t.content))
    decreases left
  {
    hide Lines, Rest, TakeOnce, TakeFrom, IsQuietTake;
    TakeUnfolds(db, content, n, left);
    if left == 0 {
      NoQuietTake(db, Lines(content), n, left);
    } else {
      QuietTakeOnce(db, content, n);
      var a := TakeOnce(db, content, n);
      if Lines(content) == [] {
        NoQuietTake(db, [], n, left);
      } else if a.answer.Some? {
        LastQuietTake(db, Lines(content), n, left);
        assert a.lines == [] ==> Lines(a.content) == Lines(content);
        assert a.lines != [] ==> Lines(a.content) == Lines(content)[1..];
      } else {
        QuietTake(db, a.content, n + 2, left - 1);
        var t := TakeFrom(db, a.content, n + 2, left - 1);
        EarlierQuietTake(db, Lines(content), Lines(a.content), n, left, t.answer, t.lines, Lines(t.content));
      }
    }
  }

  lemma NoQuietTake(db: Database, lines: seq<string>, n: nat, left: nat)
    requires left == 0 || lines == []
    ensures IsQuietTake(db, lines, n, left, TakeFailed, [], lines)
  {
    NothingSkipped(db, n);
  }

  lemma LastQuietTake(db: Database, lines: seq<string>, n: nat, left: nat)
    requires left > 0 && lines != [] && !db.updates(n + 1).Uncounted?
    ensures var update := db.updates(n + 1);
            IsQuietTake(db, lines, n, left, if update.Counted? then Card(lines[0]) else TakeFailed,
                        if update.NoEffect? then [] else [lines[0]], if update.NoEffect? then lines else lines[1..])
  {
    EffectiveUnfolds(db, n, Most(left, lines));
  }

  lemma EarlierQuietTake(db: Database, lines: seq<string>, rest: seq<string>, n: nat, left: nat,
                         answer: Taken, taken: seq<string>, after: seq<string>)
    requires left > 0 && lines != [] && lines == [lines[0]] + rest && db.updates(n + 1).Uncounted?
    requires IsQuietTake(db, rest, n + 2, left - 1, answer, taken, after)
    ensures IsQuietTake(db, lines, n, left, answer, [lines[0]] + taken, after)
  {
    hide Skipped, Closing, Effective;
    EffectiveUnfolds(db, n, Most(left, lines));
  }

  lemma NothingSkipped(db: Database, n: nat)
    ensures Skipped(db, n, 0) == Effective(db, n, 0) == 0 && Closing(db, n, 0) == None
  {}

  lemma QuietTakeOnce(db: Database, content: string, n: nat)
    requires Quiet(db, n, n + 2)
    ensures var a, lines, update := TakeOnce(db, content, n), Lines(content), db.updates(n + 1);
            if lines == [] then a == Attempt(Some(TakeFailed), [], content, n + 1)
            else
              && a.next == n + 2 && lines == a.lines + Lines(a.content)
              && a.lines == (if update.NoEffect? then [] else [lines[0]])
              && a.answer == match update
                             case Counted => Some(Card(lines[0]))
                             case Uncounted => None
                             case _ => Some(TakeFailed)
  {
    hide Lines, Rest;
    LinesAreLines(content);
    if Lines(content) != [] { RemainingLines(Lines(content)); }
  }

  /** When nobody interferes, a take loses a card exactly if its first update takes effect without saying so. */
  lemma {:induction false} QuietTakeLosesExactly(db: Database, content: string, n: nat, left: nat)
    requires Quiet(db, n, n + 2 * left) && left > 0 && Lines(content) != []
    ensures Unreturned(TakeFrom(db, content, n, left)) != [] <==> db.updates(n + 1).Unreported? || db.updates(n + 1).Uncounted?
  {
    hide Lines, TakeFrom;
    QuietTake(db, content, n, left);
  }

  /** A restore that reports success put the line in front; more copies than that, or a copy after a
    * failure, come from an update whose number of rows could not be read or from a last one that reported
    * an error.
    */
  lemma {:induction false} PutMeans(db: Database, line: string, content: string, n: nat, left: nat)
    ensures var p := PutFrom(db, line, content, n, left);
            && n <= p.next <= n + 2 * left && p.copies <= left
            && (p.answer ==> p.copies > 0)
            && (AllCounted(db, n, p.next) ==> p.copies <= 1)
            && (AllCounted(db, n, p.next) && !p.answer && p.copies > 0 ==> EndsUnreported(db, p.next))
    decreases left
  {
    hide InFront, Seen;
    if left > 0 {
      var a := PutOnce(db, line, content, n);
      if a.answer.None? { PutMeans(db, line, a.content, a.next, left - 1); }
    }
  }

  /** The column before attempt `i` of a restore, if the loop gets there. */
  function BeforePut(db: Database, line: string, content: string, n: nat, i: nat): Option<string>
    decreases i
  {
    if i == 0 then Some(content)
    else
      var a := PutOnce(db, line, content, n);
      if a.answer.None? then BeforePut(db, line, a.content, a.next, i - 1) else None
  }

  /** The first attempt that answers decides the restore. */
  lemma {:induction false} PutReaches(db: Database, line: string, content: string, n: nat, left: nat, k: nat)
    ensures k < left && PutEnds(db, line, content, n, k) ==>
              Some(PutFrom(db, line, content, n, left).answer)
              == PutOnce(db, line, BeforePut(db, line, content, n, k).value, n + 2 * k).answer
    decreases k
  {
    hide PutOnce, PutFrom;
    PutUnfolds(db, line, content, n, left);
    if 0 < k < left && PutEnds(db, line, content, n, k) {
      var a := PutOnce(db, line, content, n);
      AttemptRepeats(db, line, content, n);
      assert n + 2 * k == a.next + 2 * (k - 1);
      PutReaches(db, line, a.content, a.next, left - 1, k - 1);
    }
  }

  ghost predicate PutSlips(db: Database, line: string, content: string, n: nat, i: nat) {
    match BeforePut(db, line, content, n, i)
    case None => false
    case Some(now) => Unnoticed(db, now, n + 2 * i)
  }

  /** A restore puts more copies back than it reports exactly if one of its attempts has an unnoticed update. */
  lemma {:induction false} PutRepeatsExactly(db: Database, line: string, content: string, n: nat, left: nat)
    ensures var p := PutFrom(db, line, content, n, left);
            && (if p.answer then 1 else 0) <= p.copies
            && (p.copies > (if p.answer then 1 else 0) <==> exists i :: 0 <= i < left && PutSlips(db, line, content, n, i))
    decreases left
  {
    hide PutFrom, PutOnce, Unnoticed;
    PutUnfolds(db, line, content, n, left);
    if left > 0 {
      var a := PutOnce(db, line, content, n);
      AttemptRepeats(db, line, content, n);
      if a.answer.None? {
        PutRepeatsExactly(db, line, a.content, a.next, left - 1);
        forall i | 0 < i < left ensures PutSlips(db, line, content, n, i) <==> PutSlips(db, line, a.content, a.next, i - 1) {
          assert n + 2 * i == a.next + 2 * (i - 1);
        }
        assert forall i :: 0 <= i < left - 1 ==> PutSlips(db, line, content, n, i + 1) == PutSlips(db, line, a.content, a.next, i);
      }
    }
  }

  lemma AttemptRepeats(db: Database, line: string, content: string, n: nat)
    ensures var a := PutOnce(db, line, content, n);
            && (a.answer.None? ==> a.next == n + 2)
            && (PutSlips(db, line, content, n, 0) <==> a.copies > 0 && a.answer != Some(true))
            && (a.answer == Some(true) ==> a.copies == 1)
  {
    hide InFront, Seen;
  }

  /** An update that finds the column as it was read and reports an error although it took effect: the
    * restore fails, and the line is in front again.
    */
  lemma UnreportedPutRestores(db: Database, line: string, content: string, n: nat, left: nat)
    requires left > 0 && !db.fails(n) && db.updates(n + 1).Unreported? && OneLine(line) && !Blank(line)
    requires var snapshot := Seen(db, content, n); Seen(db, snapshot, n + 1) == snapshot
    ensures var p := PutFrom(db, line, content, n, left);
            && !p.answer && p.copies == 1
            && Lines(p.content) == [Trim(line)] + Lines(Seen(db, content, n))
  {
    hide Lines, Seen;
    MergedLines(line, Seen(db, content, n));
  }

  /** When nobody interferes, the number of copies is known exactly. */
  lemma {:induction false} QuietPut(db: Database, line: string, content: string, n: nat, left: nat)
    requires Quiet(db, n, n + 2 * left) && OneLine(line) && !Blank(line)
    ensures var p := PutFrom(db, line, content, n, left);
            && (p.answer <==> Closing(db, n, left) == Some(Counted))
            && p.copies == Effective(db, n, left)
            && Lines(p.content) == Copies(Trim(line), p.copies) + Lines(content)
    decreases left
  {
    hide Lines, Trim, Blank, PutOnce, PutFrom, OneLine, Copies, Effective, Skipped, Closing;
    PutUnfolds(db, line, content, n, left);
    CopiesInFront(Trim(line), 0, Lines(content));
    NothingSkipped(db, n);
    if left > 0 {
      QuietPutOnce(db, line, content, n);
      EffectiveUnfolds(db, n, left);
      var a := PutOnce(db, line, content, n);
      if a.answer.None? {
        QuietPut(db, line, a.content, n + 2, left - 1);
        CopiesInFront(Trim(line), Effective(db, n + 2, left - 1), Lines(content));
      }
    }
  }

  lemma CopiesInFront(line: string, n: nat, lines: seq<string>)
    ensures Copies(line, 0) + lines == lines
    ensures Copies(line, n) + (Copies(line, 1) + lines) == Copies(line, n + 1) + lines
  {
    assert Copies(line, n) + Copies(line, 1) == Copies(line, n + 1);
  }

  lemma QuietPutOnce(db: Database, line: string, content: string, n: nat)
    requires Quiet(db, n, n + 2) && OneLine(line) && !Blank(line)
    ensures var a, update := PutOnce(db, line, content, n), db.updates(n + 1);
            && a.next == n + 2 && a.copies == (if update.NoEffect? then 0 else 1)
            && Lines(a.content) == Copies(Trim(line), a.copies) + Lines(content)
            && a.answer == match update
                           case Counted => Some(true)
                           case Uncounted => None
                           case _ => Some(false)
  {
    hide Lines, InFront, Blank, Trim;
    MergedLines(line, content);
    assert Copies(Trim(line), 0) + Lines(content) == Lines(content);
    assert Copies(Trim(line), 1) == [Trim(line)];
  }

  // ---- the row ----

  /** The row of one card, and the statements sent to it. */
  class CardRow {
    var history: seq<Version>
    var statements: nat
    const db: Database

    constructor (content: string, db: Database)
      ensures Consistent(history) && history == [Version(content, Other)] && statements == 0 && this.db == db
    {
      history := [Version(content, Other)];
      statements := 0;
      this.db := db;
    }

    function Current(): string
      reads this
      requires history != []
    {
      history[|history| - 1].content
    }

    /** The other connections' writes before our next statement. */
    method Interfere()
      requires Consistent(history)
      modifies this`history
      ensures Consistent(history) && old(history) <= history && OwnSince(old(history), history) == []
      ensures Current() == Seen(db, old(Current()), statements)
    {
      hide OwnSince;
      var writes := db.others(statements);
      NothingSince(history);
      for i := 0 to |writes|
        invariant Consistent(history) && old(history) <= history && OwnSince(old(history), history) == []
        invariant Current() == if i == 0 then old(Current()) else writes[i - 1]
      {
        SinceOneMore(history, Version(writes[i], Other));
        SinceGrows(old(history), history, history + [Version(writes[i], Other)]);
        history := history + [Version(writes[i], Other)];
      }
    }

    /** `SELECT data_content`. */
    method Select() returns (content: Option<string>)
      requires Consistent(history)
      modifies this
      ensures Consistent(history) && old(history) <= history && OwnSince(old(history), history) == []
      ensures Current() == Seen(db, old(Current()), old(statements)) && statements == old(statements) + 1
      ensures content == if db.fails(old(statements)) then None else Some(Current())
    {
      Interfere();
      content := if db.fails(statements) then None else Some(Current());
      statements := statements + 1;
    }

    /** `UPDATE ... WHERE data_content = snapshot` and the test of its number of rows. */
    method CompareAndSet(snapshot: string, next: Version) returns (r: Swap)
      requires Consistent(history) && Follows(snapshot, next) && !next.writer.Other?
      modifies this
      ensures Consistent(history) && old(history) <= history && statements == old(statements) + 1
      ensures var now := Seen(db, old(Current()), old(statements));
              var update := db.updates(old(statements));
              && r == SwapOf(update, now == snapshot)
              && (if now == snapshot && !update.NoEffect? then
                    OwnSince(old(history), history) == [next.writer] && history[|history| - 1] == next
                  else
                    OwnSince(old(history), history) == [] && Current() == now)
    {
      hide OwnSince, Follows;
      Interfere();
      var update := db.updates(statements);
      statements := statements + 1;
      var same := Current() == snapshot;
      if same && !update.NoEffect? {
        SinceOneMore(history, next);
        SinceGrows(old(history), history, history + [next]);
        history := history + [next];
      }
      r := SwapOf(update, same);
    }

    /** No statement fails and no other connection writes. */
    ghost predicate Undisturbed() {
      (forall n :: !db.fails(n) && db.updates(n).Counted?) && forall n :: db.others(n) == []
    }

    /** One pass of the loop of `ConsumeBatchData`. */
    method TryTake() returns (r: Option<Taken>)
      requires Consistent(history)
      modifies this
      ensures Consistent(history) && old(history) <= history
      ensures var a := TakeOnce(db, old(Current()), old(statements));
              && r == a.answer && Current() == a.content && statements == a.next
              && OwnSince(old(history), history) == Takers(a.lines)
              && (a.lines != [] ==> history[|history| - 1].writer == Taker(a.lines[0]))
    {
      hide Lines, Rest, Seen, Follows, OwnSince, Takers;
      NothingSince(history);
      TakersOfOne();
      var content := Select();
      if content.None? { return Some(TakeFailed); }
      var snapshot := content.value;
      var lines := Lines(snapshot);
      if lines == [] { return Some(TakeFailed); }
      TakeFollows(snapshot);
      ghost var before := history;
      var swap := CompareAndSet(snapshot, Version(Rest(lines), Taker(lines[0])));
      SinceGrows(old(history), before, history);
      match swap {
        case Swapped => r := Some(Card(lines[0]));
        case SwapFailed => r := Some(TakeFailed);
        case TryAgain => r := None;
      }
    }

    /** The loop of `ConsumeBatchData`. */
    method TakeLoop() returns (r: Taken)
      requires Consistent(history)
      modifies this
      ensures Consistent(history) && old(history) <= history && old(statements) <= statements
      ensures var t := TakeFrom(db, old(Current()), old(statements), ATTEMPTS);
              && r == t.answer && Current() == t.content && statements == t.next
              && OwnSince(old(history), history) == Takers(t.lines)
              && ((r.Card? || AllCounted(db, old(statements), statements)) && t.lines != [] ==>
                    history[|history| - 1].writer == Taker(t.lines[|t.lines| - 1]))
    {
      hide Blank, Lines, TakeOnce, TakeFrom, OwnSince, Follows, Takers;
      ghost var content, n := Current(), statements;
      ghost var lines: seq<string> := [];
      NothingSince(history);
      for attempts := 0 to ATTEMPTS
        invariant Consistent(history) && old(history) <= history && OwnSince(old(history), history) == Takers(lines)
        invariant n <= statements && (AllCounted(db, n, statements) ==> lines == [])
        invariant TakeFrom(db, content, n, ATTEMPTS) == After(lines, TakeFrom(db, Current(), statements, ATTEMPTS - attempts))
      {
        ghost var a, before := TakeOnce(db, Current(), statements), history;
        TakeUnfolds(db, Current(), statements, ATTEMPTS - attempts);
        ReturnedIsTaken(db, Current(), statements);
        var answer := TryTake();
        SinceGrows(old(history), before, history);
        WritersOfParts(lines, a.lines, "", 0, 0);
        lines := lines + a.lines;
        if answer.Some? { return answer.value; }
      }
      TakeUnfolds(db, Current(), statements, 0);
      assert lines + [] == lines;
      return TakeFailed;
    }

    /** `ConsumeBatchData`: its own writes remove, each as the first card, exactly the lines of `TakeFrom`,
      * of which only the last one is returned, if any.
      */
    method Consume() returns (r: Taken)
      requires Consistent(history)
      modifies this
      ensures Consistent(history) && old(history) <= history
      ensures var t := TakeFrom(db, old(Current()), old(statements), ATTEMPTS);
              && r == t.answer && Current() == t.content && statements == t.next
              && OwnSince(old(history), history) == Takers(t.lines)
      // there are twenty attempts, and the first one that answers decides
      ensures statements <= old(statements) + 40
      ensures forall k :: 0 <= k < 20 && TakeEnds(db, old(Current()), old(statements), k) ==>
                Some(r) == TakeOnce(db, BeforeTake(db, old(Current()), old(statements), k).value, old(statements) + 2 * k).answer
      ensures r.Card? ==> !Blank(r.line) && history[|history| - 1].writer == Taker(r.line)
      // without updates whose number of rows cannot be read, a card is lost only by a last update that reports an error
      ensures var own := OwnSince(old(history), history);
              AllCounted(db, old(statements), statements) ==>
                if r.Card? then own == [Taker(r.line)]
                else own == [] || (EndsUnreported(db, statements) && own == [history[|history| - 1].writer] && own[0].Taker?)
      ensures Undisturbed() ==> (r.Card? <==> Lines(old(Current())) != [])
    {
      hide Blank, Lines, TakeFrom, TakeOnce, BeforeTake, OwnSince, Follows, Takers;
      TakeConcludes(db, Current(), statements);
      if Undisturbed() { TakeOfUndisturbed(db, Current(), statements); }
      r := TakeLoop();
    }

    /** One pass of the loop of `RestoreBatchData`. */
    method TryPut(line: string) returns (r: Option<bool>)
      requires Consistent(history) && !Blank(line)
      modifies this
      ensures Consistent(history) && old(history) <= history
      ensures var a := PutOnce(db, line, old(Current()), old(statements));
              && r == a.answer && Current() == a.content && statements == a.next
              && OwnSince(old(history), history) == Putters(line, a.copies)
              && (a.copies > 0 ==> history[|history| - 1].writer == Putter(line))
    {
      hide Lines, InFront, Seen, Follows, OwnSince, Putters;
      NothingSince(history);
      PuttersOfOne(line);
      var read := Select();
      if read.None? { return Some(false); }
      var snapshot := read.value;
      PutFollows(line, snapshot);
      ghost var before := history;
      var swap := CompareAndSet(snapshot, Version(InFront(line, snapshot), Putter(line)));
      SinceGrows(old(history), before, history);
      match swap {
        case Swapped => r := Some(true);
        case SwapFailed => r := Some(false);
        case TryAgain => r := None;
      }
    }

    /** `RestoreBatchData`: its own writes put the line in front exactly as often as `PutFrom` says. */
    method Restore(line: string) returns (ok: bool)
      requires Consistent(history)
      modifies this
      ensures Consistent(history) && old(history) <= history
      ensures Blank(line) ==> !ok && history == old(history) && statements == old(statements)
      ensures !Blank(line) ==>
                var p := PutFrom(db, line, old(Current()), old(statements), ATTEMPTS);
                && ok == p.answer && Current() == p.content && statements == p.next
                && OwnSince(old(history), history) == Putters(line, p.copies)
      // there are twenty attempts, and the first one that answers decides
      ensures statements <= old(statements) + 40
      ensures !Blank(line) ==> forall k :: 0 <= k < 20 && PutEnds(db, line, old(Current()), old(statements), k) ==>
                Some(ok) == PutOnce(db, line, BeforePut(db, line, old(Current()), old(statements), k).value, old(statements) + 2 * k).answer
      ensures ok ==> history[|history| - 1].writer == Putter(line)
      // without updates whose number of rows cannot be read, there is one copy after a success, and one
      // after a failure only by a last update that reports an error
      ensures var own := OwnSince(old(history), history);
              AllCounted(db, old(statements), statements) ==>
                if ok then own == [Putter(line)]
                else own == [] || (EndsUnreported(db, statements) && own == [Putter(line)] && history[|history| - 1].writer == Putter(line))
      ensures Undisturbed() ==> (ok <==> !Blank(line))
    {
      hide Trim, Blank, PutOnce, PutFrom, OwnSince, Follows, Putters;
      ghost var content, n := Current(), statements;
      NothingSince(history);
      ghost var copies: nat := 0;
      if Blank(line) { return false; }
      PutConcludes(db, line, content, n);
      if Undisturbed() { PutOfUndisturbed(db, line, content, n); }
      for attempts := 0 to ATTEMPTS
        invariant Consistent(history) && old(history) <= history && OwnSince(old(history), history) == Putters(line, copies)
        invariant AllCounted(db, n, statements) ==> copies == 0
        invariant n <= statements
        invariant PutFrom(db, line, content, n, ATTEMPTS) == More(copies, PutFrom(db, line, Current(), statements, ATTEMPTS - attempts))
      {
        ghost var a, before := PutOnce(db, line, Current(), statements), history;
        PutUnfolds(db, line, Current(), statements, ATTEMPTS - attempts);
        DoneIsPut(db, line, Current(), statements);
        var answer := TryPut(line);
        SinceGrows(old(history), before, history);
        WritersOfParts([], [], line, copies, a.copies);
        copies := copies + a.copies;
        if answer.Some? { return answer.value; }
      }
      PutUnfolds(db, line, Current(), statements, 0);
      return false;
    }
  }

  lemma TakeConcludes(db: Database, content: string, n: nat)
    ensures TakeFrom(db, content, n, ATTEMPTS).next <= n + 40
    ensures forall k :: 0 <= k < 20 && TakeEnds(db, content, n, k) ==>
              Some(TakeFrom(db, content, n, ATTEMPTS).answer) == TakeOnce(db, BeforeTake(db, content, n, k).value, n + 2 * k).answer
    ensures var t := TakeFrom(db, content, n, ATTEMPTS);
            && (t.answer.Card? ==> !Blank(t.answer.line) && t.lines != [] && t.lines[|t.lines| - 1] == t.answer.line)
            && (AllCounted(db, n, t.next) ==>
                  if t.answer.Card? then Takers(t.lines) == [Taker(t.answer.line)]
                  else Takers(t.lines) == [] || (EndsUnreported(db, t.next) && |t.lines| == 1 && Takers(t.lines) == [Taker(t.lines[0])]))
  {
    hide Blank, TakeFrom, TakeOnce;
    TakeMeans(db, content, n, ATTEMPTS);
    forall k | 0 <= k < 20 && TakeEnds(db, content, n, k)
      ensures Some(TakeFrom(db, content, n, ATTEMPTS).answer) == TakeOnce(db, BeforeTake(db, content, n, k).value, n + 2 * k).answer
    {
      TakeReaches(db, content, n, ATTEMPTS, k);
    }
    var t := TakeFrom(db, content, n, ATTEMPTS);
    assert |t.lines| == 1 ==> Takers(t.lines) == [Taker(t.lines[0])];
  }

  lemma PutConcludes(db: Database, line: string, content: string, n: nat)
    ensures PutFrom(db, line, content, n, ATTEMPTS).next <= n + 40
    ensures forall k :: 0 <= k < 20 && PutEnds(db, line, content, n, k) ==>
              Some(PutFrom(db, line, content, n, ATTEMPTS).answer) == PutOnce(db, line, BeforePut(db, line, content, n, k).value, n + 2 * k).answer
    ensures var p := PutFrom(db, line, content, n, ATTEMPTS);
            AllCounted(db, n, p.next) ==>
              if p.answer then Putters(line, p.copies) == [Putter(line)]
              else Putters(line, p.copies) == [] || (EndsUnreported(db, p.next) && Putters(line, p.copies) == [Putter(line)])
  {
    hide PutFrom, PutOnce;
    PutMeans(db, line, content, n, ATTEMPTS);
    forall k | 0 <= k < 20 && PutEnds(db, line, content, n, k)
      ensures Some(PutFrom(db, line, content, n, ATTEMPTS).answer) == PutOnce(db, line, BeforePut(db, line, content, n, k).value, n + 2 * k).answer
    {
      PutReaches(db, line, content, n, ATTEMPTS, k);
    }
    PuttersOfOne(line);
  }

  lemma ReturnedIsTaken(db: Database, content: string, n: nat)
    ensures var a := TakeOnce(db, content, n);
            && n < a.next && |a.lines| <= 1
            && (a.answer.Some? && a.answer.value.Card? ==> a.lines == [a.answer.value.line])
            && (a.answer.None? && a.lines != [] ==> db.updates(a.next - 1).Uncounted?)
  {
    hide Lines, Seen, Rest;
  }

  lemma DoneIsPut(db: Database, line: string, content: string, n: nat)
    ensures var a := PutOnce(db, line, content, n);
            && n < a.next
            && (a.answer == Some(true) ==> a.copies == 1)
            && (a.answer.None? && a.copies > 0 ==> db.updates(a.next - 1).Uncounted?)
  {
    hide InFront, Seen;
  }

  lemma TakeUnfolds(db: Database, content: string, n: nat, left: nat)
    ensures left == 0 ==> TakeFrom(db, content, n, left) == Taking(TakeFailed, [], content, n)
    ensures left > 0 ==>
              var a := TakeOnce(db, content, n);
              if a.answer.Some? then TakeFrom(db, content, n, left) == Taking(a.answer.value, a.lines, a.content, a.next)
              else TakeFrom(db, content, n, left) == After(a.lines, TakeFrom(db, a.content, a.next, left - 1))
  {
    hide TakeOnce;
  }

  lemma PutUnfolds(db: Database, line: string, content: string, n: nat, left: nat)
    ensures left == 0 ==> PutFrom(db, line, content, n, left) == Putting(false, 0, content, n)
    ensures left > 0 ==>
              var a := PutOnce(db, line, content, n);
              if a.answer.Some? then PutFrom(db, line, content, n, left) == Putting(a.answer.value, a.copies, a.content, a.next)
              else PutFrom(db, line, content, n, left) == More(a.copies, PutFrom(db, line, a.content, a.next, left - 1))
  {
    hide PutOnce;
  }

  lemma TakeOfUndisturbed(db: Database, content: string, n: nat)
    requires Quiet(db, n, n + 2 * ATTEMPTS) && db.updates(n + 1).Counted?
    ensures TakeFrom(db, content, n, ATTEMPTS).answer.Card? <==> Lines(content) != []
  {
    hide Lines, TakeFrom;
    QuietTake(db, content, n, ATTEMPTS);
  }

  lemma PutOfUndisturbed(db: Database, line: string, content: string, n: nat)
    requires Quiet(db, n, n + 2 * ATTEMPTS) && db.updates(n + 1).Counted?
    ensures PutFrom(db, line, content, n, ATTEMPTS).answer
  {
    hide InFront;
  }

  // ---- what updates that report nothing do ----

  /** A database without other connections whose statement 1 ends like this. */
  function Faulty(first: Update): Database {
    Database(n => false, n => if n == 1 then first else Counted, n => [])
  }

  lemma Letter(c: char)
    requires !IsSpace(c) && !IsBreak(c)
    ensures OneLine([c]) && Trim([c]) == [c] && !Blank([c])
  {}

  lemma LinesOfSmall()
    ensures Lines("a") == ["a"] && Lines("a\nb") == ["a", "b"] && Lines("") == []
    ensures OneLine("a") && Trim("a") == "a" && !Blank("a")
  {
    hide Lines, Trim, Blank, OneLine;
    Letter('a');
    Letter('b');
    LinesOfPrepended("b", "");
    LinesOfPrepended("a", "b");
    assert "a" + "\n" + "b" == "a\nb";
    assert Blank("") by { BlankMeansSpaces(""); }
    BlankHasNoLines("");
  }

  /** The only card is taken by an update that reports an error: the take fails and the column is empty. */
  method LoseOnlyCard() returns (row: CardRow, r: Taken)
    ensures row.history != [] && row.history[0].content == "a" && Lines("a") == ["a"]
    ensures r == TakeFailed && Lines(row.Current()) == []
  {
    hide Lines, TakeFrom, OneLine, Blank, Follows, OwnSince, Takers;
    LinesOfSmall();
    row := new CardRow("a", Faulty(Unreported));
    QuietTake(row.db, "a", 0, ATTEMPTS);
    r := row.Consume();
  }

  /** Without the number of rows of its first update, one take removes two cards and returns the second. */
  method TakeTwoForOne() returns (row: CardRow, r: Taken)
    ensures row.history != [] && row.history[0].content == "a\nb" && Lines("a\nb") == ["a", "b"]
    ensures r == Card("b") && Lines(row.Current()) == []
  {
    hide Lines, TakeFrom, OneLine, Blank, Follows, OwnSince, Takers;
    LinesOfSmall();
    row := new CardRow("a\nb", Faulty(Uncounted));
    QuietTake(row.db, "a\nb", 0, ATTEMPTS);
    r := row.Consume();
  }

  /** A restore whose first update ends like this: it fails and the card is back all the same, or it
    * succeeds and the card is there twice.
    */
  method PutBackUnnoticed(first: Update) returns (row: CardRow, ok: bool)
    requires first.Unreported? || first.Uncounted?
    ensures row.history != [] && row.history[0].content == ""
    ensures ok == first.Uncounted? && Lines(row.Current()) == if ok then ["a", "a"] else ["a"]
  {
    hide Lines, PutFrom, OneLine, Blank, Trim, Follows, OwnSince, Putters;
    LinesOfSmall();
    row := new CardRow("", Faulty(first));
    QuietPut(row.db, "a", "", 0, ATTEMPTS);
    ok := row.Restore("a");
  }

  lemma TakeFollows(snapshot: string)
    requires Lines(snapshot) != []
    ensures var lines := Lines(snapshot);
            Follows(snapshot, Version(Rest(lines), Taker(lines[0])))
  {
    LinesAreLines(snapshot);
    RemainingLines(Lines(snapshot));
  }

  lemma PutFollows(line: string, snapshot: string)
    requires !Blank(line)
    ensures Follows(snapshot, Version(InFront(line, snapshot), Putter(line)))
  {
    MergedLines(line, snapshot);
  }

  lemma RemainingLines(lines: seq<string>)
    requires lines != [] && forall i :: 0 <= i < |lines| ==> OneLine(lines[i]) && !Blank(lines[i])
    ensures lines == [lines[0]] + Lines(Rest(lines))
  {
    LinesOfJoined(lines[1..]);
    assert lines == [lines[0]] + lines[1..];
  }

  lemma MergedLines(line: string, snapshot: string)
    requires !Blank(line)
    ensures OneLine(line) ==>
              Lines(InFront(line, snapshot)) == [Trim(line)] + Lines(snapshot)
  {
    if OneLine(line) {
      TrimKeepsLine(line);
      TrimOfTrimmed(Trim(line));
      LinesOfPrepended(Trim(line), snapshot);
      if Blank(snapshot) { BlankHasNoLines(snapshot); }
    }
  }
}
