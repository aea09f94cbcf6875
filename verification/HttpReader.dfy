/** The incremental reader of one HTTP response on a socket that stays open. One char is one byte. */
module HttpReader {
  import opened Wrappers
  import opened Text

  const USIZE_LIMIT := 0x1_0000_0000_0000_0000

  // ---------- the header block ----------

  predicate BlankLineAt(buf: string, i: nat) {
    i + 4 <= |buf| && buf[i] == '\r' && buf[i + 1] == '\n' && buf[i + 2] == '\r' && buf[i + 3] == '\n'
  }

  /** Where the first blank line is: `windows(4).position`. */
  function FirstBlankLine(buf: string, from: nat): (i: Option<nat>)
    ensures i.Some? ==> from <= i.value && BlankLineAt(buf, i.value)
    ensures i.Some? ==> forall k | from <= k < i.value :: !BlankLineAt(buf, k)
    ensures i == None ==> forall k | from <= k :: !BlankLineAt(buf, k)
    decreases |buf| - from
  {
    if from + 4 > |buf| then None
    else if BlankLineAt(buf, from) then Some(from)
    else FirstBlankLine(buf, from + 1)
  }

  /** One past the first blank line, if it has arrived. */
  function HeaderEnd(buf: string): (h: Option<nat>)
    ensures h.Some? ==> 4 <= h.value <= |buf| && BlankLineAt(buf, h.value - 4)
    ensures h.Some? ==> forall k: nat | k < h.value - 4 :: !BlankLineAt(buf, k)
    ensures h == None ==> forall k: nat :: !BlankLineAt(buf, k)
  {
    match FirstBlankLine(buf, 0)
    case None => None
    case Some(i) => Some(i + 4)
  }

  /** How the announced body length is read out of a header block. */
  type Announce = string -> Option<nat>

  /** `parse::<usize>`: digits with an optional plus sign, within 64 bits. */
  function ParseUsize(s: string): Option<nat> {
    var digits := if s != "" && s[0] == '+' then s[1..] else s;
    if digits == "" || exists c :: c in digits && !IsDigit(c) then None
    else if Number(digits) < USIZE_LIMIT then Some(Number(digits)) else None
  }

  function LengthIn(lines: seq<string>): Option<nat> {
    if lines == [] then None
    else match SplitOnce(lines[0], ':')
      case Some((name, value)) =>
        if Lowercase(name) == "content-length" && ParseUsize(Trim(value)).Some? then ParseUsize(Trim(value))
        else LengthIn(lines[1..])
      case None => LengthIn(lines[1..])
  }

  /** The function the reader passes for `announced`: the first line named content-length that holds a number. */
  function ContentLength(head: string): Option<nat> {
    LengthIn(Lines(head))
  }

  /** The body length the header block of `buf` announces. */
  function Wanted(buf: string, announced: Announce): Option<nat> {
    match HeaderEnd(buf)
    case None => None
    case Some(h) => announced(buf[..h - 4])
  }

  /** All the announced bytes are there, so the reader may stop. */
  predicate Enough(buf: string, announced: Announce) {
    HeaderEnd(buf).Some? && Wanted(buf, announced).Some? && |buf| >= HeaderEnd(buf).value + Wanted(buf, announced).value
  }

  function BodyOf(buf: string): Option<string> {
    match HeaderEnd(buf)
    case None => None
    case Some(h) => Some(buf[h..])
  }

  // ---------- the read loop ----------

  function Flat(pieces: seq<string>): string {
    if pieces == [] then "" else Flat(pieces[..|pieces| - 1]) + pieces[|pieces| - 1]
  }

  /** The reader stops after read number `used`, and would not have stopped earlier. */
  ghost predicate StopsAfter(pieces: seq<string>, used: nat, announced: Announce) {
    && used <= |pieces|
    && (forall k | 0 <= k < used :: !Enough(Flat(pieces[..k]), announced))
    && (used < |pieces| ==> Enough(Flat(pieces[..used]), announced))
  }

  /**
   `pieces` are the non-empty reads the socket would give before its end (or a timeout). Returns
   the body handed to the JSON parser (`None`: no header block) and how many reads were made.
   */
  method ReadResponse(pieces: seq<string>, announced: Announce) returns (body: Option<string>, used: nat)
    ensures StopsAfter(pieces, used, announced) && body == BodyOf(Flat(pieces[..used]))
  {
    var buf := "";
    var headerEnd: Option<nat> := None;
    var want: Option<nat> := None;
    used := 0;
    var stop := false;
    while used < |pieces| && !stop
      invariant 0 <= used <= |pieces|
      invariant buf == Flat(pieces[..used])
      invariant headerEnd == HeaderEnd(buf) && want == Wanted(buf, announced)
      invariant forall k | 0 <= k < used :: !Enough(Flat(pieces[..k]), announced)
      invariant stop <==> Enough(buf, announced)
    {
      headerEnd, want := Look(buf, pieces[used], announced, headerEnd, want);
      buf := buf + pieces[used];
      assert pieces[..used + 1][..used] == pieces[..used];
      used := used + 1;
      stop := headerEnd.Some? && want.Some? && |buf| >= headerEnd.value + want.value;
    }
    body := if headerEnd.Some? then Some(buf[headerEnd.value..]) else None;
  }

  /** Search for the header block in the grown buffer, unless it was found before. */
  method Look(buf: string, more: string, announced: Announce, headerEnd0: Option<nat>, want0: Option<nat>)
    returns (headerEnd: Option<nat>, want: Option<nat>)
    requires headerEnd0 == HeaderEnd(buf) && want0 == Wanted(buf, announced)
    ensures headerEnd == HeaderEnd(buf + more) && want == Wanted(buf + more, announced)
  {
    headerEnd, want := headerEnd0, want0;
    if headerEnd == None {
      headerEnd := HeaderEnd(buf + more);
      if headerEnd.Some? {
        want := announced((buf + more)[..headerEnd.value - 4]);
      }
    } else {
      MoreKeepsHeader(buf, more, announced);
    }
  }

  /** Once found, the header block and the announced length never change. */
  lemma MoreKeepsHeader(buf: string, more: string, announced: Announce)
    requires HeaderEnd(buf).Some?
    ensures HeaderEnd(buf + more) == HeaderEnd(buf) && Wanted(buf + more, announced) == Wanted(buf, announced)
  {
    var all := buf + more;
    var i := HeaderEnd(buf).value - 4;
    assert forall k: nat | k <= i :: BlankLineAt(all, k) <==> BlankLineAt(buf, k);
    assert all[..i] == buf[..i];
  }

  // ---------- independence of the split ----------

  lemma {:induction false} FlatSplits(pieces: seq<string>, k: nat)
    requires k <= |pieces|
    ensures Flat(pieces) == Flat(pieces[..k]) + Flat(pieces[k..])
  {
    if k < |pieces| {
      var front := pieces[..|pieces| - 1];
      FlatSplits(front, k);
      assert front[..k] == pieces[..k];
      assert pieces[k..][..|pieces| - k - 1] == front[k..];
    } else {
      assert pieces[..k] == pieces && Flat(pieces[k..]) == "";
    }
  }

  lemma {:induction false} NonEmptyReads(pieces: seq<string>)
    requires pieces != [] && forall r | r in pieces :: r != ""
    ensures Flat(pieces) != ""
  {
    assert pieces[|pieces| - 1] in pieces;
  }

  /** The response ends with exactly the announced body. */
  ghost predicate ExactResponse(response: string, announced: Announce) {
    Enough(response, announced) && |response| == HeaderEnd(response).value + Wanted(response, announced).value
  }

  /** The stream holds more bytes than its header announces. */
  ghost predicate Overlong(stream: string, announced: Announce) {
    Enough(stream, announced) && |stream| > HeaderEnd(stream).value + Wanted(stream, announced).value
  }

  /** A stop before the end of the stream means the stream is overlong. */
  lemma EarlyStop(pieces: seq<string>, used: nat, announced: Announce)
    requires (forall r | r in pieces :: r != "") && StopsAfter(pieces, used, announced) && used < |pieces|
    ensures Overlong(Flat(pieces), announced)
  {
    FlatSplits(pieces, used);
    assert forall r | r in pieces[used..] :: r in pieces;
    NonEmptyReads(pieces[used..]);
    MoreKeepsHeader(Flat(pieces[..used]), Flat(pieces[used..]), announced);
  }

  /**
   However an exact response is split into reads, the reader takes them all, stops without asking
   the socket again, and hands over the body and nothing else.
   */
  lemma SplitDoesNotMatter(pieces: seq<string>, used: nat, announced: Announce)
    requires (forall r | r in pieces :: r != "") && ExactResponse(Flat(pieces), announced)
    requires StopsAfter(pieces, used, announced)
    ensures used == |pieces| && Enough(Flat(pieces[..used]), announced)
    ensures var response := Flat(pieces);
            BodyOf(Flat(pieces[..used])) == Some(response[HeaderEnd(response).value..])
            && |response[HeaderEnd(response).value..]| == Wanted(response, announced).value
  {
    if used < |pieces| {
      EarlyStop(pieces, used, announced);
    } else {
      assert pieces[..used] == pieces;
    }
  }

  ghost predicate Outcome(stream: string, body: Option<string>, announced: Announce) {
    exists pieces, used ::
      && (forall r | r in pieces :: r != "") && Flat(pieces) == stream
      && StopsAfter(pieces, used, announced) && body == BodyOf(Flat(pieces[..used]))
  }

  lemma OutcomeOf(stream: string, pieces: seq<string>, used: nat, announced: Announce)
    requires (forall r | r in pieces :: r != "") && Flat(pieces) == stream && StopsAfter(pieces, used, announced)
    ensures Outcome(stream, BodyOf(Flat(pieces[..used])), announced)
  {
  }

  lemma OnlyOutcome(stream: string, body: Option<string>, announced: Announce)
    requires !Overlong(stream, announced) && Outcome(stream, body, announced)
    ensures body == BodyOf(stream)
  {
    var pieces: seq<string>, used: nat :| (forall r | r in pieces :: r != "") && Flat(pieces) == stream
                       && StopsAfter(pieces, used, announced) && body == BodyOf(Flat(pieces[..used]));
    if used < |pieces| {
      EarlyStop(pieces, used, announced);
    } else {
      assert pieces[..used] == pieces;
    }
  }

  lemma {:induction false} HeaderEndOfPrefix(stream: string, n: nat, announced: Announce)
    requires HeaderEnd(stream).Some? && HeaderEnd(stream).value <= n <= |stream|
    ensures HeaderEnd(stream[..n]) == HeaderEnd(stream) && Wanted(stream[..n], announced) == Wanted(stream, announced)
  {
    assert stream == stream[..n] + stream[n..];
    var i := HeaderEnd(stream).value - 4;
    assert forall k: nat | k <= i :: BlankLineAt(stream[..n], k) <==> BlankLineAt(stream, k);
    assert stream[..n][..i] == stream[..i];
  }

  /** An overlong stream can be read exactly or with the surplus, depending on the split. */
  lemma OverlongDiffers(stream: string, announced: Announce)
    requires Overlong(stream, announced)
    ensures exists a, b :: Outcome(stream, a, announced) && Outcome(stream, b, announced) && a != b
  {
    var h, w := HeaderEnd(stream).value, Wanted(stream, announced).value;
    var first, rest := stream[..h + w], stream[h + w..];
    HeaderEndOfPrefix(stream, h + w, announced);
    TwoSplits(stream, first, rest, announced);
    assert BodyOf(stream) == Some(stream[h..]) && BodyOf(first) == Some(first[h..]);
    assert |stream[h..]| != |first[h..]|;
  }

  lemma TwoSplits(stream: string, first: string, rest: string, announced: Announce)
    requires stream == first + rest && first != "" && rest != ""
    requires Enough(first, announced) && Enough(stream, announced)
    ensures Outcome(stream, BodyOf(stream), announced) && Outcome(stream, BodyOf(first), announced)
  {
    var whole: seq<string>, split: seq<string> := [stream], [first, rest];
    FlatSplits(split, 1);
    assert whole[..1] == whole && whole[..0] == [] && split[..0] == [];
    assert split[..1] == [first] && split[1..] == [rest];
    assert !Enough("", announced);
    FlatOne(stream);
    FlatOne(first);
    FlatOne(rest);
    OutcomeOf(stream, whole, 1, announced);
    OutcomeOf(stream, split, 1, announced);
  }

  lemma FlatOne(piece: string)
    ensures Flat([piece]) == piece
  {
    assert [piece][..0] == [];
    assert Flat([]) + piece == piece;
  }

  /** The body handed over is the same for every split exactly when the stream is not overlong. */
  lemma SplitMattersOnlyWhenOverlong(stream: string, announced: Announce)
    ensures (forall a, b :: Outcome(stream, a, announced) && Outcome(stream, b, announced) ==> a == b) <==>
            !Overlong(stream, announced)
  {
    if Overlong(stream, announced) {
      OverlongDiffers(stream, announced);
    } else {
      forall a, b | Outcome(stream, a, announced) && Outcome(stream, b, announced) ensures a == b {
        OnlyOutcome(stream, a, announced);
        OnlyOutcome(stream, b, announced);
      }
    }
  }

  // ---------- a response with a Content-Length header ----------

  /** The text of a header line: not empty, and no line end in it. */
  predicate HeaderLine(line: string) {
    line != "" && '\r' !in line && '\n' !in line
  }

  /** Header lines, a blank line, and the body (section 2.1 of RFC 9112). */
  function Response(lines: seq<string>, body: string): string {
    Join(lines, "\r\n") + "\r\n\r\n" + body
  }

  lemma FirstOfResponse(lines: seq<string>, body: string)
    requires |lines| > 1
    ensures Response(lines, body) == lines[0] + "\r\n" + Response(lines[1..], body)
  {
  }

  /** Neither a line nor the end of one holds a blank line. */
  lemma NoBlankLineIn(line: string, rest: string, i: nat)
    requires HeaderLine(line) && rest != "" && rest[0] != '\r' && i < |line| + 2
    ensures !BlankLineAt(line + "\r\n" + rest, i)
  {
    var s := line + "\r\n" + rest;
    if i < |line| {
      assert s[i] == line[i] && line[i] in line;
    } else {
      assert s[|line| + 1] == '\n' && s[|line| + 2] == rest[0];
    }
  }

  lemma BlankLineShifts(front: string, rest: string, i: nat)
    requires i >= |front|
    ensures BlankLineAt(front + rest, i) == BlankLineAt(rest, i - |front|)
  {
    var s := front + rest;
    assert forall k | |front| <= k < |s| :: s[k] == rest[k - |front|];
  }

  /** The first blank line of a response ends its header block. */
  lemma {:induction false} HeaderEndsAtBlankLine(lines: seq<string>, body: string, i: nat)
    requires lines != [] && forall l | l in lines :: HeaderLine(l)
    ensures BlankLineAt(Response(lines, body), |Join(lines, "\r\n")|)
    ensures i < |Join(lines, "\r\n")| ==> !BlankLineAt(Response(lines, body), i)
    decreases |lines|
  {
    assert lines[0] in lines;
    if |lines| == 1 {
      if i < |lines[0]| {
        assert Response(lines, body)[i] == lines[0][i] && lines[0][i] in lines[0];
      }
    } else {
      var front, rest := lines[0] + "\r\n", Response(lines[1..], body);
      assert lines[1] in lines && lines[1][0] in lines[1] && rest[0] == lines[1][0];
      FirstOfResponse(lines, body);
      var n := |Join(lines[1..], "\r\n")|;
      HeaderEndsAtBlankLine(lines[1..], body, if i >= |front| then i - |front| else 0);
      BlankLineShifts(front, rest, |front| + n);
      if i < |front| {
        NoBlankLineIn(lines[0], rest, i);
      } else {
        BlankLineShifts(front, rest, i);
      }
    }
  }

  lemma HeaderEndOf(lines: seq<string>, body: string)
    requires lines != [] && forall l | l in lines :: HeaderLine(l)
    ensures HeaderEnd(Response(lines, body)) == Some(|Join(lines, "\r\n")| + 4)
    ensures Response(lines, body)[..|Join(lines, "\r\n")|] == Join(lines, "\r\n")
    ensures Response(lines, body)[|Join(lines, "\r\n")| + 4..] == body
  {
    var head := Join(lines, "\r\n");
    var s := Response(lines, body);
    forall i: nat | i < |head| ensures !BlankLineAt(s, i) {
      HeaderEndsAtBlankLine(lines, body, i);
    }
    HeaderEndsAtBlankLine(lines, body, 0);
    FirstBlankLineIs(s, |head|);
  }

  lemma FirstBlankLineIs(s: string, n: nat)
    requires BlankLineAt(s, n) && forall i: nat | i < n :: !BlankLineAt(s, i)
    ensures HeaderEnd(s) == Some(n + 4)
  {
    var first := FirstBlankLine(s, 0);
    assert first.Some? ==> first.value <= n;
  }

  /** A header block's lines come back one by one. */
  lemma {:induction false} HeaderLinesBack(lines: seq<string>)
    requires lines != [] && forall l | l in lines :: HeaderLine(l)
    ensures Lines(Join(lines, "\r\n")) == lines
  {
    var l := lines[0];
    assert l in lines;
    if |lines| == 1 {
      assert Find(l, '\n') == |l|;
      assert lines == [l];
    } else {
      var rest := Join(lines[1..], "\r\n");
      HeaderLinesBack(lines[1..]);
      FirstHeaderLine(l, rest);
      assert Join(lines, "\r\n") == l + "\r\n" + rest;
      assert lines == [l] + lines[1..];
    }
  }

  lemma FirstHeaderLine(l: string, rest: string)
    requires HeaderLine(l)
    ensures Lines(l + "\r\n" + rest) == [l] + Lines(rest)
  {
    var s := l + "\r\n" + rest;
    assert s[..|l| + 1] == l + "\r" && s[|l| + 1] == '\n' && s[|l| + 2..] == rest;
    FindIs(s, '\n', |l| + 1);
    assert s[..|l|] == l;
  }

  lemma TrimsToDigits(left: string, d: string, right: string)
    requires d != "" && (forall c | c in d :: IsDigit(c)) && forall c | c in left + right :: IsSpace(c)
    ensures Trim(left + d + right) == d
  {
    assert d[0] in d && d[|d| - 1] in d;
    DropAround(left, d, right, IsSpace);
  }

  lemma ParsesDecimal(n: nat)
    requires n < USIZE_LIMIT
    ensures ParseUsize(Decimal(n)) == Some(n)
  {
    var d := Decimal(n);
    assert d[0] in d;
    NumberOfDecimal(n);
  }

  /** The name of the length header, its letters in any case. */
  predicate IsLengthName(name: string) {
    InAnyCase(name, "content-length", "CONTENT-LENGTH")
  }

  lemma LengthName(name: string)
    ensures Lowercase(name) == "content-length" <==> IsLengthName(name)
  {
    LowercaseIs(name, "content-length", "CONTENT-LENGTH");
  }

  /** A line that announces no body length. */
  predicate OtherHeader(line: string) {
    SplitOnce(line, ':') == None || !IsLengthName(SplitOnce(line, ':').value.0)
  }

  /** `name: n`, the name in any case, with any white space around the number. */
  ghost predicate AnnouncesLength(line: string, n: nat) {
    exists name, left, right ::
      && line == name + [':'] + (left + Decimal(n) + right)
      && IsLengthName(name) && ':' !in name && forall c | c in left + right :: IsSpace(c)
  }

  lemma LengthHere(name: string, value: string, n: nat, after: seq<string>)
    requires IsLengthName(name) && ':' !in name && ParseUsize(Trim(value)) == Some(n)
    ensures LengthIn([name + [':'] + value] + after) == Some(n)
  {
    SplitOnceIs(name, ':', value);
    LengthName(name);
  }

  lemma LengthLineIsRead(line: string, n: nat, after: seq<string>)
    requires n < USIZE_LIMIT && AnnouncesLength(line, n)
    ensures LengthIn([line] + after) == Some(n)
  {
    var name, left, right :| line == name + [':'] + (left + Decimal(n) + right)
      && IsLengthName(name) && ':' !in name && forall c | c in left + right :: IsSpace(c);
    TrimsToDigits(left, Decimal(n), right);
    ParsesDecimal(n);
    LengthHere(name, left + Decimal(n) + right, n, after);
  }

  /** Past lines of other names the announced number comes back, whatever follows it. */
  lemma {:induction false} AnnouncedLengthIsRead(before: seq<string>, line: string, n: nat, after: seq<string>)
    requires n < USIZE_LIMIT && AnnouncesLength(line, n) && forall l | l in before :: OtherHeader(l)
    ensures LengthIn(before + [line] + after) == Some(n)
  {
    var lines := before + [line] + after;
    if before == [] {
      assert lines == [line] + after;
      LengthLineIsRead(line, n, after);
    } else {
      assert lines[0] == before[0] && before[0] in before && lines[1..] == before[1..] + [line] + after;
      if SplitOnce(before[0], ':').Some? {
        LengthName(SplitOnce(before[0], ':').value.0);
      }
      AnnouncedLengthIsRead(before[1..], line, n, after);
    }
  }

  /** A response that announces the length of its body is exact. */
  lemma AnnouncedResponseIsExact(before: seq<string>, line: string, after: seq<string>, body: string)
    requires |body| < USIZE_LIMIT && AnnouncesLength(line, |body|)
    requires (forall l | l in before :: OtherHeader(l)) && forall l | l in before + [line] + after :: HeaderLine(l)
    ensures var response := Response(before + [line] + after, body);
            && ExactResponse(response, ContentLength) && Wanted(response, ContentLength) == Some(|body|)
            && BodyOf(response) == Some(body)
  {
    var lines := before + [line] + after;
    HeaderEndOf(lines, body);
    HeaderLinesBack(lines);
    AnnouncedLengthIsRead(before, line, |body|, after);
  }

  /**
   However such a response is split into reads, the reader takes them all, asks for no more, and
   returns exactly the body.
   */
  method ReadAnnounced(pieces: seq<string>, ghost before: seq<string>, ghost line: string, ghost after: seq<string>,
                       ghost expected: string)
    returns (body: Option<string>, used: nat)
    requires (forall r | r in pieces :: r != "") && Flat(pieces) == Response(before + [line] + after, expected)
    requires |expected| < USIZE_LIMIT && AnnouncesLength(line, |expected|)
    requires (forall l | l in before :: OtherHeader(l)) && forall l | l in before + [line] + after :: HeaderLine(l)
    ensures used == |pieces| && Enough(Flat(pieces), ContentLength) && body == Some(expected)
  {
    AnnouncedResponseIsExact(before, line, after, expected);
    body, used := ReadResponse(pieces, ContentLength);
    SplitDoesNotMatter(pieces, used, ContentLength);
    assert pieces[..used] == pieces;
  }
}
