/** The move log of a match: one line per applied move, `"<n>: Player <p>: <move>"`, with
    the newest line first (`makeMove` in src/app/page.tsx). */
module MoveLog {
  import opened Wrappers

  predicate IsDigits(s: string)
  {
    forall i :: 0 <= i < |s| ==> '0' <= s[i] <= '9'
  }

  function DigitChar(d: nat): (c: char)
    requires d < 10
    ensures '0' <= c <= '9' && (c as int) - ('0' as int) == d
  {
    (('0' as int) + d) as char
  }

  /** The decimal text of `n`, as a template literal prints a non-negative integer: the
      canonical form, one digit for numbers below ten and no leading zero otherwise. */
  function NatToString(n: nat): (s: string)
    ensures |s| >= 1 && IsDigits(s)
    ensures n < 10 <==> |s| == 1
    ensures n > 0 ==> s[0] != '0'
    decreases n
  {
    if n < 10 then [DigitChar(n)] else NatToString(n / 10) + [DigitChar(n % 10)]
  }

  /** The number a string of decimal digits denotes. */
  function DigitsValue(s: string): nat
    requires IsDigits(s)
  {
    if s == [] then 0
    else DigitsValue(s[..|s| - 1]) * 10 + ((s[|s| - 1] as int) - ('0' as int))
  }

  /** Reading the decimal text back gives the number. */
  lemma {:induction false} DigitsValueOfNatToString(n: nat)
    ensures DigitsValue(NatToString(n)) == n
  {
    if n >= 10 {
      DigitsValueOfNatToString(n / 10);
      var s := NatToString(n);
      assert s[..|s| - 1] == NatToString(n / 10);
    }
  }

  /** The position of the first `c` in `s`, or `|s|` when there is none. */
  function IndexOf(s: string, c: char): (i: nat)
    ensures i <= |s|
    ensures i < |s| ==> s[i] == c
    ensures forall k :: 0 <= k < i ==> s[k] != c
  {
    if s == [] then 0 else if s[0] == c then 0 else 1 + IndexOf(s[1..], c)
  }

  lemma {:induction false} IndexOfAfterPrefix(a: string, rest: string, c: char)
    requires forall k :: 0 <= k < |a| ==> a[k] != c
    requires |rest| > 0 && rest[0] == c
    ensures IndexOf(a + rest, c) == |a|
  {
    if a != [] {
      assert (a + rest)[1..] == a[1..] + rest;
      IndexOfAfterPrefix(a[1..], rest, c);
    }
  }

  /** The text before and after the first `c` in `s`, when there is one. */
  function SplitAt(s: string, c: char): Option<(string, string)>
  {
    var i := IndexOf(s, c);
    if i == |s| then None else Some((s[..i], s[i + 1..]))
  }

  lemma SplitAtFirst(a: string, c: char, b: string)
    requires forall k :: 0 <= k < |a| ==> a[k] != c
    ensures SplitAt(a + [c] + b, c) == Some((a, b))
  {
    var s := a + [c] + b;
    assert s == a + ([c] + b);
    IndexOfAfterPrefix(a, [c] + b, c);
    assert s[..|a|] == a;
    assert s[|a| + 1..] == b;
  }

  /** A positive decimal number with at least one digit, read back as a 0-based count. */
  function ParseOrdinal(s: string): Option<nat>
  {
    if s == [] || !IsDigits(s) then None
    else
      var n := DigitsValue(s);
      if n == 0 then None else Some(n - 1)
  }

  lemma ParseOrdinalRoundTrip(n: nat)
    ensures ParseOrdinal(NatToString(n + 1)) == Some(n)
  {
    DigitsValueOfNatToString(n + 1);
  }

  datatype EntryFields = EntryFields(index: nat, player: nat, move: string)

  const PlayerWord: string := " Player "

  /** Reads the part of a log line after the move number: `" Player <p>: <move>"`. */
  function ParsePlayerPart(rest: string): Option<(nat, string)>
  {
    if |rest| < |PlayerWord| || rest[..|PlayerWord|] != PlayerWord then None
    else
      match SplitAt(rest[|PlayerWord|..], ':')
      case None => None
      case Some((pnum, tail)) =>
        if tail == [] || tail[0] != ' ' then None
        else
          match ParseOrdinal(pnum)
          case None => None
          case Some(p) => Some((p, tail[1..]))
  }

  /** Reads a log line back into its 0-based move index, 0-based player and move text. */
  function ParseEntry(e: string): Option<EntryFields>
  {
    match SplitAt(e, ':')
    case None => None
    case Some((num, rest)) =>
      match (ParseOrdinal(num), ParsePlayerPart(rest))
      case (Some(i), Some((p, move))) => Some(EntryFields(i, p, move))
      case _ => None
  }

  lemma PlayerPartRoundTrip(player: nat, move: string)
    ensures ParsePlayerPart(PlayerWord + NatToString(player + 1) + ": " + move) == Some((player, move))
  {
    var b := NatToString(player + 1);
    var tail := " " + move;
    var rest := PlayerWord + b + ": " + move;
    assert rest == PlayerWord + (b + [':'] + tail);
    assert rest[..|PlayerWord|] == PlayerWord;
    assert rest[|PlayerWord|..] == b + [':'] + tail;
    SplitAtFirst(b, ':', tail);
    assert tail[1..] == move;
    ParseOrdinalRoundTrip(player);
  }

  /** The log line for the move at 0-based position `index`, made by 0-based player `player`:
      it starts with the 1-based move number (no leading zero) and ends with the move text. */
  function Entry(index: nat, player: nat, move: string): (e: string)
    ensures |e| > |move| + 10 && '1' <= e[0] <= '9' && e[|e| - |move|..] == move
  {
    NatToString(index + 1) + ": Player " + NatToString(player + 1) + ": " + move
  }

  /** A log line determines the move number, the player and the move it records. */
  lemma EntryRoundTrip(index: nat, player: nat, move: string)
    ensures ParseEntry(Entry(index, player, move)) == Some(EntryFields(index, player, move))
  {
    var a := NatToString(index + 1);
    var rest := PlayerWord + NatToString(player + 1) + ": " + move;
    assert Entry(index, player, move) == a + [':'] + rest;
    SplitAtFirst(a, ':', rest);
    ParseOrdinalRoundTrip(index);
    PlayerPartRoundTrip(player, move);
  }

  lemma EntryInjective(i: nat, p: nat, m: string, i': nat, p': nat, m': string)
    requires Entry(i, p, m) == Entry(i', p', m')
    ensures i == i' && p == p' && m == m'
  {
    EntryRoundTrip(i, p, m);
    EntryRoundTrip(i', p', m');
  }

  /** The log that a history of applied moves (oldest first) produces, newest line first;
      the k-th move is made by player k % 2. */
  function LogOf(history: seq<string>): (log: seq<string>)
    ensures |log| == |history|
  {
    if history == [] then []
    else
      var n := |history| - 1;
      [Entry(n, n % 2, history[n])] + LogOf(history[..n])
  }

  /** Line k of the log, counted from the newest, records move |h| - 1 - k. */
  lemma {:induction false} LogOfAt(h: seq<string>, k: nat)
    requires k < |h|
    ensures var n := |h| - 1 - k;
            LogOf(h)[k] == Entry(n, n % 2, h[n])
  {
    if k > 0 {
      LogOfAt(h[..|h| - 1], k - 1);
    }
  }

  /** Applying one more move puts exactly one new line in front and keeps the rest. */
  lemma {:induction false} LogOfSnoc(h: seq<string>, m: string)
    ensures LogOf(h + [m]) == [Entry(|h|, |h| % 2, m)] + LogOf(h)
  {
    var h' := h + [m];
    assert h'[|h|] == m;
    assert h'[..|h|] == h;
  }

  /** Applying further moves only adds lines at the front: the old log is a suffix. */
  lemma {:induction false} LogOfExtend(h: seq<string>, ext: seq<string>)
    ensures LogOf(h + ext)[|ext|..] == LogOf(h)
    decreases |ext|
  {
    if ext == [] {
      assert h + ext == h;
    } else {
      var n := |ext| - 1;
      assert h + ext == (h + ext[..n]) + [ext[n]];
      LogOfSnoc(h + ext[..n], ext[n]);
      LogOfExtend(h, ext[..n]);
    }
  }
}
