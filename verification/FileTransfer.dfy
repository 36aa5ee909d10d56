/** The framed file transfer: sender (crates/agent_manager/src/agent_cli_client.rs) and
    receiver (crates/agent_manager/src/agent_cli_server.rs).

    Characters stand for bytes. The connection delivers the bytes in order and in pieces of
    any size; the receiver is handed the first piece and reads the others itself. */
module FileTransfer {
  import opened Common
  import opened Decimals

  type Bytes = string

  const BUFFER_SIZE: nat := 4096
  const MAX_U64: nat := 0xFFFF_FFFF_FFFF_FFFF

  const SOH: char := 1 as char
  const STX: char := 2 as char

  const START: Bytes := [SOH] + "FILE_START" + [SOH]
  const END: Bytes := [STX] + "FILE_END" + [STX]

  datatype Result = Ok | NoMarker | NoHeader | BadFormat | BadSize | Truncated | BadEnd

  // ---------------------------------------------------------------- finding and cutting

  predicate At(s: Bytes, i: int, w: Bytes) {
    0 <= i && i + |w| <= |s| && s[i..i + |w|] == w
  }

  /** The first position of a pattern. */
  ghost predicate FirstAt(s: Bytes, w: Bytes, i: int) {
    At(s, i, w) && forall j :: 0 <= j < i ==> !At(s, j, w)
  }

  function Find(s: Bytes, c: char): (r: Option<nat>)
    ensures r.None? <==> c !in s
    ensures r.Some? ==> r.value < |s| && s[r.value] == c && c !in s[..r.value]
  {
    if s == "" then None
    else if s[0] == c then Some(0)
    else
      match Find(s[1..], c)
      case None => None
      case Some(i) =>
        assert s[..i + 1] == [s[0]] + s[1..][..i];
        Some(i + 1)
  }

  lemma NoneBefore(s: Bytes, c: char, i: nat)
    requires i <= |s| && c !in s[..i]
    ensures forall k :: 0 <= k < i ==> s[k] != c
  {
    forall k | 0 <= k < i
      ensures s[k] != c
    {
      assert s[..i][k] == s[k];
    }
  }

  lemma FindUnique(s: Bytes, c: char, i: nat)
    requires i < |s| && s[i] == c && c !in s[..i]
    ensures Find(s, c) == Some(i)
  {
    assert c in s;
    NoneBefore(s, c, i);
    NoneBefore(s, c, Find(s, c).value);
  }

  /** Without the carriage returns at the end. */
  function TrimCr(s: string): (r: string)
    ensures r <= s && (forall i :: |r| <= i < |s| ==> s[i] == '\r')
    ensures r == "" || r[|r| - 1] != '\r'
  {
    if s != "" && s[|s| - 1] == '\r' then TrimCr(s[..|s| - 1]) else s
  }

  function ParseDigits(digits: string): Option<nat> {
    if digits == "" || exists k :: 0 <= k < |digits| && !IsDigit(digits[k]) then None
    else if Value(digits) > MAX_U64 then None
    else Some(Value(digits))
  }

  /** A decimal number of 64 bits, with an optional plus sign. */
  function ParseU64(s: string): Option<nat> {
    if s != "" && s[0] == '+' then ParseDigits(s[1..]) else ParseDigits(s)
  }

  lemma ParseDecimal(n: nat)
    requires n <= MAX_U64
    ensures ParseU64(Decimal(n)) == Some(n)
  {
    ValueOfDecimal(n);
    assert IsDigit(Decimal(n)[0]);
  }

  ghost predicate Digits(d: string) {
    d != "" && forall k :: 0 <= k < |d| ==> IsDigit(d[k])
  }

  lemma DigitsRead(d: string)
    requires Digits(d)
    ensures ParseU64(d) == ParseU64("+" + d) == if Value(d) <= MAX_U64 then Some(Value(d)) else None
  {
    assert IsDigit(d[0]);
    assert ("+" + d)[1..] == d && ("+" + d)[0] == '+';
  }

  lemma ParsedDigits(d: string)
    ensures ParseDigits(d).Some? ==> Digits(d) && ParseDigits(d) == Some(Value(d)) && Value(d) <= MAX_U64
  {
  }

  /** Which texts are numbers: digits with at most one plus sign in front, up to the limit. */
  lemma NumberIff(s: string, n: nat)
    ensures ParseU64(s) == Some(n) <==> exists d :: (s == d || s == "+" + d) && Digits(d) && Value(d) == n <= MAX_U64
  {
    if ParseU64(s) == Some(n) {
      var d := if s != "" && s[0] == '+' then s[1..] else s;
      assert s == d || s == "+" + d;
      ParsedDigits(d);
    }
    hide ParseU64, Value;
    if d :| (s == d || s == "+" + d) && Digits(d) && Value(d) == n <= MAX_U64 {
      DigitsRead(d);
    }
  }

  // ---------------------------------------------------------------- the wire

  function Header(size: nat, path: string): Bytes {
    START + Decimal(size) + ":" + path + "\n"
  }

  function Wire(payload: Bytes, path: string): Bytes {
    Header(|payload|, path) + payload + END
  }

  /** The sender: the header, the file in pieces of any size up to the buffer, the end
      marker. */
  method SendFile(payload: Bytes, path: string) returns (wire: Bytes)
    ensures wire == Wire(payload, path)
  {
    var size := |payload|;
    var header := START + Decimal(size) + ":" + path + "\n";
    wire := header;
    var sent := 0;
    while sent < size
      invariant 0 <= sent <= size && wire == header + payload[..sent]
    {
      var n: nat :| 1 <= n <= size - sent && n <= BUFFER_SIZE;
      wire := wire + payload[sent..sent + n];
      sent := sent + n;
      assert payload[..sent] == payload[..sent - n] + payload[sent - n..sent];
    }
    wire := wire + END;
    assert payload[..sent] == payload;
  }

  // ---------------------------------------------------------------- what the receiver makes of the bytes

  /** A header: size, path and where the body begins, or what is wrong with it. */
  datatype Parsed = Bad(r: Result) | Good(size: nat, path: string, body: nat)

  /** The header at the beginning of a text that starts with the marker. */
  function ParseHeader(s: Bytes): (p: Parsed)
    ensures p.Good? ==> p.body <= |s|
  {
    match Find(s, '\n')
    case None => Bad(NoHeader)
    case Some(n) =>
      if !(START <= s[..n]) then Bad(BadFormat)
      else
        var rest := s[..n][|START|..];
        match Find(rest, ':')
        case None => Bad(BadFormat)
        case Some(colon) =>
          match ParseU64(rest[..colon])
          case None => Bad(BadSize)
          case Some(size) => Good(size, TrimCr(rest[colon + 1..]), n + 1)
  }

  function Min(a: nat, b: nat): nat { if a <= b then a else b }

  /** What is saved and how many bytes of the connection are used, if the first piece holds
      `first` of the body and `stream` is still to come. */
  function Saved(first: Bytes, stream: Bytes, size: nat): Bytes {
    var k := Min(|first|, size);
    first[..k] + stream[..Min(size - k, |stream|)]
  }

  function Used(first: Bytes, stream: Bytes, size: nat): (n: nat)
    ensures n <= |stream|
  {
    Min(size - Min(|first|, size), |stream|)
  }

  function Ending(stream: Bytes): Result {
    if |stream| < |END| then Truncated else if stream[..|END|] == END then Ok else BadEnd
  }

  /** What is left of a connection after an end marker was asked for. */
  function Left(stream: Bytes): Bytes {
    if |stream| < |END| then "" else stream[|END|..]
  }

  /** The connection, with what it has still to deliver. */
  class Reader {
    var stream: Bytes

    constructor (stream: Bytes)
      ensures this.stream == stream
    {
      this.stream := stream;
    }

    /** Some bytes, at least one unless the connection is at its end. */
    method Read(need: nat) returns (piece: Bytes)
      requires need > 0
      modifies this
      ensures piece + stream == old(stream) && |piece| <= need
      ensures piece == "" <==> old(stream) == ""
    {
      if stream == "" {
        return "";
      }
      var n: nat :| 1 <= n <= need && n <= |stream|;
      piece, stream := stream[..n], stream[n..];
    }

    method ReadExact(n: nat) returns (ok: bool, piece: Bytes)
      modifies this
      ensures ok <==> |old(stream)| >= n
      ensures ok ==> piece == old(stream)[..n] && stream == old(stream)[n..]
      ensures !ok ==> stream == ""
    {
      if |stream| < n {
        stream := "";
        return false, "";
      }
      ok, piece, stream := true, stream[..n], stream[n..];
    }
  }

  /** The position of the first start marker. */
  method FindStart(raw: Bytes) returns (r: Option<nat>)
    requires |raw| >= |START|
    ensures r.Some? ==> FirstAt(raw, START, r.value)
    ensures r.None? ==> forall i :: !At(raw, i, START)
  {
    for i := 0 to |raw| - |START| + 1
      invariant forall j :: 0 <= j < i ==> !At(raw, j, START)
    {
      if raw[i..i + |START|] == START {
        return Some(i);
      }
    }
    return None;
  }

  /** The receiver. Whatever the sizes of the pieces, what it saves and reports depends only
      on the first piece and on the bytes that follow. */
  method ReceiveFileFromBytes(raw: Bytes, reader: Reader) returns (r: Result, path: string, file: Bytes, ghost start: Option<nat>)
    requires |raw| >= |START|
    modifies reader
    ensures start.Some? ==> FirstAt(raw, START, start.value)
    ensures start.None? ==> r == NoMarker && (forall i :: !At(raw, i, START)) && file == "" && reader.stream == old(reader.stream)
    ensures start.Some? ==>
              match ParseHeader(raw[start.value..])
              case Bad(e) => r == e && path == "" && file == "" && reader.stream == old(reader.stream)
              case Good(size, p, body) =>
                var first, n := raw[start.value..][body..], Used(raw[start.value..][body..], old(reader.stream), size);
                && path == p && file == Saved(first, old(reader.stream), size)
                && r == Ending(old(reader.stream)[n..]) && reader.stream == Left(old(reader.stream)[n..])
  {
    r, path, file, start := NoMarker, "", "", None;
    var found := FindStart(raw);
    if found == None {
      return;
    }
    start := found;
    hide ParseHeader, Saved, Used, Ending, Left, FirstAt;
    var s := raw[found.value..];
    var parsed := ReadHeader(s);
    match parsed
    case Bad(e) =>
      r := e;
    case Good(size, p, body) =>
      path := p;
      r, file := ReadBody(s[body..], size, reader);
  }

  /** The header up to the first newline: marker, size, colon, path. */
  method ReadHeader(s: Bytes) returns (p: Parsed)
    ensures p == ParseHeader(s)
  {
    hide ParseU64, TrimCr;
    var newline := Find(s, '\n');
    if newline == None {
      return Bad(NoHeader);
    }
    var header := s[..newline.value];
    if !(START <= header) {
      return Bad(BadFormat);
    }
    var rest := header[|START|..];
    var colon := Find(rest, ':');
    if colon == None {
      return Bad(BadFormat);
    }
    var size := ParseU64(rest[..colon.value]);
    if size == None {
      return Bad(BadSize);
    }
    return Good(size.value, TrimCr(rest[colon.value + 1..]), newline.value + 1);
  }

  method ReadBody(first: Bytes, size: nat, reader: Reader) returns (r: Result, file: Bytes)
    modifies reader
    ensures file == Saved(first, old(reader.stream), size)
    ensures var n := Used(first, old(reader.stream), size);
            && r == Ending(old(reader.stream)[n..]) && reader.stream == Left(old(reader.stream)[n..])
  {
    ghost var stream := reader.stream;
    file := "";
    var received := 0;
    if first != "" {
      var toWrite := Min(|first|, size);
      if toWrite > 0 {
        file := first[..toWrite];
        received := toWrite;
      }
    }
    ghost var k := Min(|first|, size);
    assert file == first[..k];
    ghost var used := 0;
    while received < size
      invariant 0 <= used <= |stream| && received == k + used <= size
      invariant reader.stream == stream[used..] && file == first[..k] + stream[..used]
      decreases size - received
    {
      var need := Min(BUFFER_SIZE, size - received);
      var piece := reader.Read(need);
      if piece == "" {
        break;
      }
      assert stream[..used + |piece|] == stream[..used] + piece;
      assert reader.stream == stream[used + |piece|..];
      file := file + piece;
      received := received + |piece|;
      used := used + |piece|;
    }
    assert used == Used(first, stream, size);
    var ok, end := reader.ReadExact(|END|);
    if !ok {
      return Truncated, file;
    }
    r := if end == END then Ok else BadEnd;
    assert stream[used..][|END|..] == stream[used + |END|..];
  }

  // ---------------------------------------------------------------- sender and receiver together

  lemma NotIn(s: string, c: char)
    requires (forall k :: 0 <= k < |s| ==> IsDigit(s[k])) && !IsDigit(c)
    ensures c !in s
  {
  }

  /** The pieces of a header, for any marker and any digits. */
  lemma HeaderParts(mark: Bytes, d: string, path: string, tail: Bytes)
    ensures var head, s := mark + d + ":" + path, mark + d + ":" + path + "\n" + tail;
            && s[|head|] == '\n' && s[..|head|] == head && head[|mark|..] == d + ":" + path && head[..|mark|] == mark
    ensures var rest := d + ":" + path; rest[|d|] == ':' && rest[..|d|] == d && rest[|d| + 1..] == path
  {
    var head := mark + d + ":" + path;
    assert head == mark + (d + ":" + path);
  }

  lemma NoNewline(mark: Bytes, d: string, path: string)
    requires '\n' !in mark && '\n' !in d && '\n' !in path
    ensures '\n' !in mark + d + ":" + path
  {
  }

  lemma StartHasNoNewline()
    ensures '\n' !in START
  {
  }

  lemma PrefixOf(mark: Bytes, s: Bytes)
    requires |mark| <= |s| && s[..|mark|] == mark
    ensures mark <= s
  {
  }

  /** Reading a header whose pieces are known. */
  lemma ReadParts(s: Bytes, n: nat, colon: nat)
    requires n < |s| && s[n] == '\n' && '\n' !in s[..n] && START <= s[..n]
    requires var rest := s[..n][|START|..]; colon < |rest| && rest[colon] == ':' && ':' !in rest[..colon]
    ensures var rest := s[..n][|START|..];
            ParseHeader(s) == match ParseU64(rest[..colon])
                              case None => Bad(BadSize)
                              case Some(size) => Good(size, TrimCr(rest[colon + 1..]), n + 1)
  {
    hide ParseU64, TrimCr;
    FindUnique(s, '\n', n);
    FindUnique(s[..n][|START|..], ':', colon);
  }

  /** A header line without a colon is refused, and so is one whose size is no number. */
  lemma HeaderRefused(line: string, rest: Bytes)
    requires '\n' !in line
    ensures ':' !in line ==> ParseHeader(START + line + "\n" + rest) == Bad(BadFormat)
    ensures forall colon :: 0 <= colon < |line| && line[colon] == ':' && ':' !in line[..colon] ==>
              ParseHeader(START + line + "\n" + rest) == match ParseU64(line[..colon])
                                                        case None => Bad(BadSize)
                                                        case Some(size) => Good(size, TrimCr(line[colon + 1..]), |START| + |line| + 1)
  {
    hide ParseU64;
    StartHasNoNewline();
    var mark, s := START, START + line + "\n" + rest;
    var n := |mark| + |line|;
    assert s[..n] == mark + line && s[n] == '\n' && (mark + line)[|mark|..] == line && mark <= mark + line;
    FindUnique(s, '\n', n);
    forall colon | 0 <= colon < |line| && line[colon] == ':' && ':' !in line[..colon]
      ensures ParseHeader(s) == match ParseU64(line[..colon])
                                case None => Bad(BadSize)
                                case Some(size) => Good(size, TrimCr(line[colon + 1..]), n + 1)
    {
      FindUnique(line, ':', colon);
    }
  }

  /** The receiver reads the header the sender wrote, exactly if the path has no newline in it
      and no carriage return at its end. */
  lemma HeaderReadBack(size: nat, path: string, tail: Bytes)
    requires size <= MAX_U64
    ensures ParseHeader(Header(size, path) + tail) == Good(size, path, |Header(size, path)|) <==> Plain(path)
  {
    hide ParseHeader, ParseU64;
    var d := Decimal(size);
    NotIn(d, '\n');
    NotIn(d, ':');
    var mark := START;
    var head := mark + d + ":" + path;
    HeaderParts(mark, d, path, tail);
    if '\n' in path {
      EarlyNewline(Header(size, path) + tail, |head|, |head| - |path|);
    } else {
      StartHasNoNewline();
      NoNewline(mark, d, path);
      PrefixOf(mark, head);
      ReadParts(Header(size, path) + tail, |head|, |d|);
      ParseDecimal(size);
      TrimKeeps(path);
    }
  }

  /** A path that arrives changed: the receiver strips a carriage return at its end. */
  lemma PathNotReadBack() returns (path: string)
    ensures ParseHeader(Header(0, path)) != Good(0, path, |Header(0, path)|)
  {
    path := "f\r";
    HeaderReadBack(0, path, "");
    assert Header(0, path) + "" == Header(0, path);
  }

  /** A path that survives the header. */
  predicate Plain(path: string) {
    '\n' !in path && (path == "" || path[|path| - 1] != '\r')
  }

  lemma {:induction false} TrimKeeps(s: string)
    ensures |TrimCr(s)| <= |s|
    ensures TrimCr(s) == s <==> s == "" || s[|s| - 1] != '\r'
  {
    if s != "" && s[|s| - 1] == '\r' {
      TrimKeeps(s[..|s| - 1]);
    }
  }

  lemma EarlyNewline(s: Bytes, n: nat, from: nat)
    requires from <= n <= |s| && '\n' in s[from..n]
    ensures ParseHeader(s).Good? ==> ParseHeader(s).body <= n
  {
    hide ParseU64, TrimCr;
    var i :| 0 <= i < |s[from..n]| && s[from..n][i] == '\n';
    assert s[from + i] == '\n';
    NoneBefore(s, '\n', Find(s, '\n').value);
  }

  /** What the connection carries of a transfer and behind it. */
  function Sent(payload: Bytes, path: string, after: Bytes): Bytes {
    Wire(payload, path) + after
  }

  /** The first piece: some earlier bytes and the first k bytes of the transfer. */
  ghost predicate FirstPiece(junk: Bytes, payload: Bytes, path: string, after: Bytes, raw: Bytes, k: nat) {
    && k <= |Sent(payload, path, after)|
    && raw == junk + Sent(payload, path, after)[..k]
    && FirstAt(raw, START, |junk|)
  }

  /** Where a cut divides what is sent, for any header and any rest. */
  lemma Cut(junk: Bytes, header: Bytes, tail: Bytes, k: nat)
    requires k <= |header| + |tail|
    ensures (junk + (header + tail)[..k])[|junk|..] == (header + tail)[..k]
    ensures k <= |header| ==> (header + tail)[..k] == header[..k]
    ensures k >= |header| ==>
              var m := k - |header|;
              && (header + tail)[..k] == header + tail[..m] && (header + tail[..m])[|header|..] == tail[..m]
              && (header + tail)[k..] == tail[m..]
  {
  }

  lemma Regroup(header: Bytes, payload: Bytes, end: Bytes, after: Bytes)
    ensures header + payload + end + after == header + (payload + end + after)
  {
  }

  /** What is saved does not depend on the cut, only on the bytes. */
  lemma SavedIs(first: Bytes, stream: Bytes, size: nat)
    requires size <= |first + stream|
    ensures Saved(first, stream, size) == (first + stream)[..size]
  {
  }

  /** The end marker is looked for behind the body and behind the first piece. */
  lemma StreamLeft(first: Bytes, stream: Bytes, size: nat)
    requires size <= |first + stream|
    ensures stream[Used(first, stream, size)..] == (first + stream)[Max(size, |first|)..]
  {
  }

  function Max(a: nat, b: nat): nat { if a >= b then a else b }

  /** What the receiver sees of a first piece that holds the header. */
  lemma SplitSent(junk: Bytes, payload: Bytes, path: string, after: Bytes, raw: Bytes, k: nat)
    requires |payload| <= MAX_U64 && Plain(path)
    requires FirstPiece(junk, payload, path, after, raw, k) && |Header(|payload|, path)| <= k
    ensures var h, tail := |Header(|payload|, path)|, payload + END + after;
            && ParseHeader(raw[|junk|..]) == Good(|payload|, path, h)
            && raw[|junk|..][h..] == tail[..k - h]
            && Sent(payload, path, after)[k..] == tail[k - h..]
  {
    hide ParseHeader, Header, FirstAt;
    var header, end := Header(|payload|, path), END;
    Regroup(header, payload, end, after);
    Cut(junk, header, payload + end + after, k);
    HeaderReadBack(|payload|, path, (payload + end + after)[..k - |header|]);
  }

  /** A first piece that ends within the header is refused. */
  lemma HeaderCutShort(junk: Bytes, payload: Bytes, path: string, after: Bytes, raw: Bytes, k: nat)
    requires '\n' !in path && FirstPiece(junk, payload, path, after, raw, k) && k < |Header(|payload|, path)|
    ensures ParseHeader(raw[|junk|..]) == Bad(NoHeader)
  {
    hide Header, FirstAt;
    var header, end := Header(|payload|, path), END;
    Regroup(header, payload, end, after);
    Cut(junk, header, payload + end + after, k);
    OneNewline(|payload|, path);
    assert forall i :: 0 <= i < k ==> header[..k][i] == header[..|header| - 1][i];
  }

  lemma OneNewline(size: nat, path: string)
    requires '\n' !in path
    ensures '\n' !in Header(size, path)[..|Header(size, path)| - 1]
  {
    var mark, d := START, Decimal(size);
    NotIn(d, '\n');
    StartHasNoNewline();
    NoNewline(mark, d, path);
    assert Header(size, path)[..|Header(size, path)| - 1] == mark + d + ":" + path;
  }

  /** The saved bytes are the payload however the connection is cut behind the header, whatever
      the payload contains and whatever comes before or after; and the end marker is looked for
      at the first byte that is behind both the body and the first piece. */
  lemma SavesPayload(junk: Bytes, payload: Bytes, path: string, after: Bytes, raw: Bytes, k: nat)
    requires |payload| <= MAX_U64 && Plain(path)
    requires FirstPiece(junk, payload, path, after, raw, k) && |Header(|payload|, path)| <= k
    ensures var p := ParseHeader(raw[|junk|..]);
            && p.Good? && p.path == path && p.size == |payload|
            && var first, stream := raw[|junk|..][p.body..], Sent(payload, path, after)[k..];
               && Saved(first, stream, p.size) == payload
               && stream[Used(first, stream, p.size)..] == (payload + END + after)[Max(|payload|, k - |Header(|payload|, path)|)..]
  {
    hide ParseHeader, Header, FirstAt, Saved, Used;
    SplitSent(junk, payload, path, after, raw, k);
    var tail, m, end := payload + END + after, k - |Header(|payload|, path)|, END;
    assert |Sent(payload, path, after)| == |Header(|payload|, path)| + |tail|;
    Rejoin(tail, m);
    SavedIs(tail[..m], tail[m..], |payload|);
    StreamLeft(tail[..m], tail[m..], |payload|);
    PayloadFirst(payload, end, after);
  }

  lemma Rejoin(s: Bytes, m: nat)
    requires m <= |s|
    ensures s[..m] + s[m..] == s
  {
  }

  lemma PayloadFirst(payload: Bytes, end: Bytes, after: Bytes)
    ensures (payload + end + after)[..|payload|] == payload && (payload + end + after)[|payload|..] == end + after
  {
  }

  lemma PrefixDecides(stream: Bytes)
    ensures Ending(stream) == Ok <==> END <= stream
    ensures Ending(stream) == Truncated <==> |stream| < |END|
    ensures Ending(stream) in {Ok, Truncated, BadEnd}
    ensures Left(stream) == if |stream| < |END| then "" else stream[|END|..]
  {
    if END <= stream {
      assert stream[..|END|] == END;
    } else if |stream| >= |END| {
      PrefixOf(stream[..|END|], stream);
    }
  }

  /** Where the marker is looked for, by the bytes that were sent. */
  lemma LookedFor(payload: Bytes, end: Bytes, after: Bytes, m: nat)
    requires m <= |payload| + |end| + |after|
    ensures var tail, at := payload + end + after, Max(|payload|, m);
            && (m <= |payload| ==> tail[at..] == end + after && end <= tail[at..])
            && (m > |payload| ==> tail[at..] == tail[m..])
            && |tail[at..]| == |end| + |after| - (at - |payload|)
            && (at - |payload| <= |after| ==> tail[at..][|end|..] == after[at - |payload|..])
  {
    PayloadFirst(payload, end, after);
    var tail, at := payload + end + after, Max(|payload|, m);
    assert tail[at..] == (end + after)[at - |payload|..];
    if at - |payload| <= |after| {
      assert (end + after)[at - |payload|..][|end|..] == after[at - |payload|..];
    }
  }

  /** How many bytes of the first piece lie behind the body. */
  function Overlap(payload: Bytes, path: string, k: nat): nat {
    var body := |Header(|payload|, path)| + |payload|;
    if k <= body then 0 else k - body
  }

  /** The result and what is left of the connection, for every cut behind the header and
      whatever follows. The marker is found if and only if the first piece ends within the body
      or another one follows the first piece; otherwise the transfer is reported as failed,
      although the file was saved. As many later bytes are swallowed as the first piece holds
      bytes from behind the body. */
  lemma SucceedsIff(junk: Bytes, payload: Bytes, path: string, after: Bytes, raw: Bytes, k: nat)
    requires |payload| <= MAX_U64 && Plain(path)
    requires FirstPiece(junk, payload, path, after, raw, k) && |Header(|payload|, path)| <= k
    ensures ParseHeader(raw[|junk|..]).Good?
    ensures var p := ParseHeader(raw[|junk|..]);
            var stream := Sent(payload, path, after)[k..];
            var n := Used(raw[|junk|..][p.body..], stream, p.size);
            var over := Overlap(payload, path, k);
            && (Ending(stream[n..]) == Ok <==> over == 0 || END <= stream)
            && (Ending(stream[n..]) == Truncated <==> |after| < over)
            && Ending(stream[n..]) in {Ok, Truncated, BadEnd}
            && Left(stream[n..]) == if |after| < over then "" else after[over..]
  {
    hide ParseHeader, Header, FirstAt, Used, Ending, Left, Saved, Sent, Max;
    SplitSent(junk, payload, path, after, raw, k);
    SavesPayload(junk, payload, path, after, raw, k);
    SentSize(payload, path, after);
    var p, stream := ParseHeader(raw[|junk|..]), Sent(payload, path, after)[k..];
    var over := Overlap(payload, path, k);
    EndingFrom(payload, after, k - |Header(|payload|, path)|, stream, stream[Used(raw[|junk|..][p.body..], stream, p.size)..], over);
  }

  lemma SentSize(payload: Bytes, path: string, after: Bytes)
    ensures |Sent(payload, path, after)| == |Header(|payload|, path)| + |payload| + |END| + |after|
  {
    hide Header;
  }

  lemma EndingFrom(payload: Bytes, after: Bytes, m: nat, stream: Bytes, left: Bytes, over: nat)
    requires m <= |payload| + |END| + |after| && over == if m <= |payload| then 0 else m - |payload|
    requires stream == (payload + END + after)[m..] && left == (payload + END + after)[Max(|payload|, m)..]
    ensures Ending(left) == Ok <==> over == 0 || END <= stream
    ensures Ending(left) == Truncated <==> |after| < over
    ensures Ending(left) in {Ok, Truncated, BadEnd}
    ensures Left(left) == if |after| < over then "" else after[over..]
  {
    hide Ending, Left;
    LookedFor(payload, END, after, m);
    PrefixDecides(left);
  }

  lemma FirstAtUnique(s: Bytes, w: Bytes, i: int, j: int)
    requires FirstAt(s, w, i) && FirstAt(s, w, j)
    ensures i == j
  {
  }

  lemma StartFound(raw: Bytes, i: nat)
    requires FirstAt(raw, START, i)
    ensures At(raw, i, START)
  {
  }

  /** Sender and receiver over one connection that may carry earlier and later bytes and
      whose first piece ends after k bytes of the transfer and what follows it. */
  method Transfer(junk: Bytes, payload: Bytes, path: string, k: nat, after: Bytes)
    returns (r: Result, where: string, file: Bytes, rest: Bytes)
    requires |payload| <= MAX_U64 && Plain(path) && k <= |Sent(payload, path, after)|
    requires FirstAt(junk + Sent(payload, path, after)[..k], START, |junk|)
    ensures k < |Header(|payload|, path)| ==> r == NoHeader && file == "" && rest == Sent(payload, path, after)[k..]
    ensures k >= |Header(|payload|, path)| ==> where == path && file == payload
    ensures k >= |Header(|payload|, path)| ==>
              var over := Overlap(payload, path, k);
              && (r == Ok <==> over == 0 || END <= Sent(payload, path, after)[k..])
              && (r == Truncated <==> |after| < over) && r in {Ok, Truncated, BadEnd}
              && rest == if |after| < over then "" else after[over..]
  {
    hide ParseHeader, Saved, Used, Ending, Left, FirstAt;
    var wire := SendFile(payload, path);
    var raw := junk + (wire + after)[..k];
    var reader := new Reader((wire + after)[k..]);
    StartFound(raw, |junk|);
    ghost var start;
    r, where, file, start := ReceiveFileFromBytes(raw, reader);
    FirstAtUnique(raw, START, start.value, |junk|);
    rest := reader.stream;
    if k < |Header(|payload|, path)| {
      HeaderCutShort(junk, payload, path, after, raw, k);
    } else {
      SavesPayload(junk, payload, path, after, raw, k);
      SucceedsIff(junk, payload, path, after, raw, k);
    }
  }

  /** A transfer that arrives in one piece, with nothing behind it: the file is saved whole and
      the transfer is reported as cut off. */
  lemma OnePieceFails() returns (payload: Bytes, path: string, raw: Bytes)
    ensures FirstPiece("", payload, path, "", raw, |raw|) && raw == Wire(payload, path)
    ensures var p := ParseHeader(raw);
            && p == Good(|payload|, path, |Header(|payload|, path)|)
            && Saved(raw[p.body..], "", p.size) == payload
            && Ending(""[Used(raw[p.body..], "", p.size)..]) == Truncated
  {
    hide ParseHeader, Header, FirstAt, Used, Ending, Saved;
    payload, path := "hello", "f";
    raw := Wire(payload, path);
    assert Sent(payload, path, "") == raw && "" + raw[..|raw|] == raw && raw[0..] == raw;
    StartsWithMarker(payload, path);
    assert raw[|raw|..] == "";
    SplitSent("", payload, path, "", raw, |raw|);
    SavesPayload("", payload, path, "", raw, |raw|);
    SucceedsIff("", payload, path, "", raw, |raw|);
  }

  lemma StartsWithMarker(payload: Bytes, path: string)
    ensures FirstAt(Wire(payload, path), START, 0)
  {
    var start := START;
    assert Wire(payload, path)[..|start|] == start;
  }
}
