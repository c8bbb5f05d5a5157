/** The output benchmark: a few prepared payloads written in turn make one stream. */
module OutputStream {
  import opened Text
  import opened TextLines
  import opened Arithmetic

  const WRITE_BYTES: nat := 131072
  const LINE_BYTES: nat := 80
  const DIGITS := "0123456789"
  const LOWER := "abcdefghijklmnopqrstuvwxyz"
  const UPPER := "ABCDEFGHIJKLMNOPQRSTUVWXYZ"
  const TEXT := DIGITS + " " + LOWER + " " + UPPER
  const HEX := "0123456789abcdef"

  /** The byte in a column of a repeated line. */
  function LineByte(column: nat): char
    requires column < LINE_BYTES
  {
    if column == LINE_BYTES - 1 then '\n' else TEXT[column % |TEXT|]
  }

  /** Byte `i` of the repeated stream. */
  function StreamByte(i: nat): char {
    LineByte(i % LINE_BYTES)
  }

  function Payload(startColumn: nat, bytes: nat): string {
    seq(bytes, i requires 0 <= i < bytes => StreamByte(startColumn + i))
  }

  // ----- The payloads of the repeated stream

  /** The payload that starts `k` writes into the stream. */
  function RepeatedPayload(k: nat): (payload: string)
    ensures |payload| == WRITE_BYTES
  {
    Payload(k * WRITE_BYTES % LINE_BYTES, WRITE_BYTES)
  }

  /** Each payload starts where the one before ended; after five the line is complete. */
  method RepeatedPayloads() returns (payloads: seq<string>)
    ensures |payloads| == 5 && forall k | 0 <= k < 5 :: payloads[k] == RepeatedPayload(k)
  {
    hide Payload;
    payloads := [];
    var startColumn := 0;
    while true
      invariant |payloads| < 5 && startColumn == |payloads| * WRITE_BYTES % LINE_BYTES
      invariant forall k | 0 <= k < |payloads| :: payloads[k] == RepeatedPayload(k)
      decreases 5 - |payloads|
    {
      payloads := payloads + [Payload(startColumn, WRITE_BYTES)];
      startColumn := (startColumn + WRITE_BYTES) % LINE_BYTES;
      if startColumn == 0 {
        break;
      }
    }
  }

  // ----- Writing payloads in turn

  ghost predicate Cycles(payloads: seq<string>, output: string) {
    && (output != "" ==> Flatten(payloads) != "")
    && (forall i | 0 <= i < |output| :: output[i] == Flatten(payloads)[i % |Flatten(payloads)|])
  }

  /** The bytes of some writes. */
  function TotalBytes(writes: seq<nat>): nat {
    if writes == [] then 0 else TotalBytes(writes[..|writes| - 1]) + writes[|writes| - 1]
  }

  lemma {:induction false} OneMoreWrite(writes: seq<nat>, w: nat)
    ensures TotalBytes(writes + [w]) == TotalBytes(writes) + w
  {
    assert (writes + [w])[..|writes|] == writes;
  }

  /** Write `bytes` bytes, cycling through the payloads; `writes` are the sizes of the
      single writes. */
  method WritePayloads(payloads: seq<string>, bytes: nat) returns (output: string, writes: seq<nat>)
    requires payloads != [] && (bytes > 0 ==> forall p | p in payloads :: p != "")
    ensures |output| == bytes && Cycles(payloads, output)
    ensures TotalBytes(writes) == bytes && forall w | w in writes :: 0 < w <= WRITE_BYTES
  {
    assert TotalBytes([]) == 0;
    hide Flatten, Offset, Cycles, TotalBytes;
    output, writes := "", [];
    var remaining := bytes;
    var index: nat, offset: nat := 0, 0;
    ghost var rounds: nat := 0;
    CyclesNothing(payloads);
    OffsetStart(payloads);
    assert payloads[0] in payloads;
    while remaining > 0
      invariant index < |payloads| && (bytes > 0 ==> offset < |payloads[index]|)
      invariant |output| == bytes - remaining
      invariant |output| == rounds * |Flatten(payloads)| + Offset(payloads, index) + offset
      invariant Cycles(payloads, output)
      invariant TotalBytes(writes) == |output| && forall w | w in writes :: 0 < w <= WRITE_BYTES
      decreases remaining
    {
      var payload := payloads[index];
      var written := Min(Min(remaining, |payload| - offset), WRITE_BYTES);
      CyclesMore(payloads, output, rounds, index, offset, written);
      output := output + payload[offset..offset + written];
      OneMoreWrite(writes, written);
      writes := writes + [written];
      remaining := remaining - written;
      offset := offset + written;
      assert payloads[if index + 1 == |payloads| then 0 else index + 1] in payloads;
      if offset == |payload| {
        NextPayload(payloads, index);
        if index + 1 == |payloads| {
          NextRound(rounds, |Flatten(payloads)|);
          rounds := rounds + 1;
        }
        index := (index + 1) % |payloads|;
        offset := 0;
      }
    }
  }

  lemma {:induction false} NextRound(rounds: nat, size: nat)
    ensures (rounds + 1) * size == rounds * size + size
  {
  }

  lemma {:induction false} CyclesNothing(payloads: seq<string>)
    ensures Cycles(payloads, "")
  {
  }

  lemma {:induction false} NextPayload(payloads: seq<string>, index: nat)
    requires index < |payloads|
    ensures Offset(payloads, index + 1) == Offset(payloads, index) + |payloads[index]|
    ensures Offset(payloads, 0) == 0
    ensures index + 1 == |payloads| ==> Offset(payloads, index + 1) == |Flatten(payloads)|
    ensures (index + 1) % |payloads| == if index + 1 == |payloads| then 0 else index + 1
  {
    hide Flatten;
    OffsetNext(payloads, index);
    OffsetStart(payloads);
    assert payloads[..|payloads|] == payloads;
  }

  /** Where a byte of a payload is in the text of all. */
  lemma {:induction false} ByteOfPayload(payloads: seq<string>, k: nat, j: nat)
    requires k < |payloads| && j < |payloads[k]|
    ensures Offset(payloads, k) + j < |Flatten(payloads)|
    ensures Flatten(payloads)[Offset(payloads, k) + j] == payloads[k][j]
  {
    OffsetSplits(payloads, k);
    assert payloads[k..][0] == payloads[k];
    assert Flatten(payloads[k..])[j] == payloads[k][j];
    assert Flatten(payloads)[Offset(payloads, k)..][j] == payloads[k][j];
  }

  lemma {:induction false} CyclesMore(payloads: seq<string>, output: string, rounds: nat, index: nat, offset: nat,
                                      n: nat)
    requires Cycles(payloads, output) && index < |payloads| && 0 < n && offset + n <= |payloads[index]|
    requires |output| == rounds * |Flatten(payloads)| + Offset(payloads, index) + offset
    ensures Cycles(payloads, output + payloads[index][offset..offset + n])
  {
    ByteOfPayload(payloads, index, offset);
    hide Flatten, Offset;
    var more := payloads[index][offset..offset + n];
    var total := |Flatten(payloads)|;
    forall i | |output| <= i < |output| + n
      ensures (output + more)[i] == Flatten(payloads)[i % total]
    {
      var j := i - |output| + offset;
      ByteOfPayload(payloads, index, j);
      RemainderIs(i, total, rounds, Offset(payloads, index) + j);
    }
  }

  // ----- The repeated stream

  lemma {:induction false} SameColumn(start: nat, j: nat)
    ensures StreamByte(start % LINE_BYTES + j) == StreamByte(start + j)
  {
    hide LineByte;
    assert (start % LINE_BYTES + j) % LINE_BYTES == (start + j) % LINE_BYTES;
  }

  /** A byte of a payload is the byte of the stream at its place. */
  lemma {:induction false} PayloadIsStream(k: nat, j: nat)
    requires j < WRITE_BYTES
    ensures RepeatedPayload(k)[j] == StreamByte(k * WRITE_BYTES + j)
  {
    hide StreamByte, Payload;
    SameColumn(k * WRITE_BYTES, j);
    PayloadAt(k * WRITE_BYTES % LINE_BYTES, WRITE_BYTES, j);
  }

  lemma {:induction false} PayloadAt(startColumn: nat, bytes: nat, j: nat)
    requires j < bytes
    ensures Payload(startColumn, bytes)[j] == StreamByte(startColumn + j)
  {
    hide StreamByte;
  }

  lemma {:induction false} RepeatedOffset(payloads: seq<string>, k: nat)
    requires (forall i | 0 <= i < |payloads| :: payloads[i] == RepeatedPayload(i)) && k <= |payloads|
    ensures Offset(payloads, k) == k * WRITE_BYTES
    decreases k
  {
    if k == 0 {
      OffsetStart(payloads);
    } else {
      RepeatedOffset(payloads, k - 1);
      hide Offset;
      OffsetNext(payloads, k - 1);
    }
  }

  /** The payloads one after the other are the start of the stream. */
  lemma {:induction false} PayloadsAreStream(payloads: seq<string>, i: nat)
    requires (forall k | 0 <= k < |payloads| :: payloads[k] == RepeatedPayload(k))
    requires i < |payloads| * WRITE_BYTES
    ensures |Flatten(payloads)| == |payloads| * WRITE_BYTES
    ensures Flatten(payloads)[i] == StreamByte(i)
  {
    hide Flatten, Offset, StreamByte, RepeatedPayload;
    var k, j := i / WRITE_BYTES, i % WRITE_BYTES;
    RepeatedOffset(payloads, |payloads|);
    RepeatedOffset(payloads, k);
    WholeOffset(payloads);
    PayloadIsStream(k, j);
    ByteOfPayload(payloads, k, j);
  }

  lemma {:induction false} WholeOffset(payloads: seq<string>)
    ensures Offset(payloads, |payloads|) == |Flatten(payloads)|
  {
    assert payloads[..|payloads|] == payloads;
  }

  /** Whatever the size, byte `i` of the repeated output depends only on its column. */
  lemma {:induction false} RepeatedIsSeamless(payloads: seq<string>, output: string, i: nat)
    requires |payloads| == 5 && forall k | 0 <= k < 5 :: payloads[k] == RepeatedPayload(k)
    requires Cycles(payloads, output) && i < |output|
    ensures output[i] == LineByte(i % LINE_BYTES)
  {
    hide Flatten, RepeatedPayload, LineByte;
    var total := 5 * WRITE_BYTES;
    PayloadsAreStream(payloads, i % total);
    ColumnInCycle(i);
  }

  lemma {:induction false} ColumnInCycle(i: nat)
    ensures i % (5 * WRITE_BYTES) % LINE_BYTES == i % LINE_BYTES
  {
  }

  // ----- Unique lines

  /** The digit with `place` digits after it. */
  function HexDigit(n: nat, place: nat): char {
    HEX[n / Power(place) % 16]
  }

  /** 16 to the power of `k`. */
  function Power(k: nat): (p: nat)
    ensures p > 0
  {
    if k == 0 then 1 else 16 * Power(k - 1)
  }

  function UniqueByte(n: nat, column: nat): char
    requires column < LINE_BYTES
  {
    if column < 5 then "line "[column]
    else if column < 21 then HexDigit(n, 20 - column)
    else if column == 21 then ' '
    else if column < LINE_BYTES - 1 then TEXT[(n + (column - 22)) % |TEXT|]
    else '\n'
  }

  function UniqueLine(n: nat): (line: string)
    ensures |line| == LINE_BYTES
  {
    seq(LINE_BYTES, column requires 0 <= column < LINE_BYTES => UniqueByte(n, column))
  }

  /** Byte `i` of the unique stream. */
  function UniqueStreamByte(i: nat): char {
    UniqueByte(i / LINE_BYTES, i % LINE_BYTES)
  }

  /** Write line `n` into `line`. */
  method FillLine(n: nat, line: array<char>)
    requires line.Length == LINE_BYTES
    modifies line
    ensures line[..] == UniqueLine(n)
  {
    hide HexDigit;
    for offset := 0 to 5
      invariant forall k | 0 <= k < offset :: line[k] == UniqueByte(n, k)
    {
      line[offset] := "line "[offset];
    }
    for offset := 0 to 16
      invariant forall k | 0 <= k < 5 + offset :: line[k] == UniqueByte(n, k)
    {
      line[5 + offset] := HexDigit(n, 15 - offset);
    }
    line[21] := ' ';
    for offset := 0 to LINE_BYTES - 1 - 22
      invariant forall k | 0 <= k < 22 + offset :: line[k] == UniqueByte(n, k)
    {
      line[22 + offset] := TEXT[(n + offset) % |TEXT|];
    }
    line[LINE_BYTES - 1] := '\n';
  }

  method UniquePayload(bytes: nat) returns (payload: string)
    ensures |payload| == bytes && forall i | 0 <= i < bytes :: payload[i] == UniqueStreamByte(i)
  {
    hide UniqueByte;
    payload := "";
    var lineIndex: nat := 0;
    while |payload| < bytes
      invariant |payload| == Min(bytes, LINE_BYTES * lineIndex)
      invariant forall i | 0 <= i < |payload| :: payload[i] == UniqueStreamByte(i)
      decreases bytes - |payload|
    {
      var line := new char[LINE_BYTES](_ => ' ');
      FillLine(lineIndex, line);
      var remaining := bytes - |payload|;
      UniqueLineInStream(lineIndex);
      payload := payload + line[..Min(remaining, line.Length)];
      lineIndex := lineIndex + 1;
    }
  }

  lemma {:induction false} UniqueLineInStream(n: nat)
    ensures forall column | 0 <= column < LINE_BYTES ::
      UniqueLine(n)[column] == UniqueStreamByte(LINE_BYTES * n + column)
  {
    hide UniqueByte;
    forall column | 0 <= column < LINE_BYTES {
      RemainderIs(LINE_BYTES * n + column, LINE_BYTES, n, column);
    }
  }

  /** Numbers with the same last `k` digits are equal, if they have no more digits. */
  lemma {:induction false} DigitsDetermine(n: nat, m: nat, k: nat)
    requires n < Power(k) && m < Power(k)
    requires forall place | 0 <= place < k :: n / Power(place) % 16 == m / Power(place) % 16
    ensures n == m
    decreases k
  {
    if k > 0 {
      assert n / Power(0) % 16 == m / Power(0) % 16;
      forall place | 0 <= place < k - 1
        ensures n / 16 / Power(place) % 16 == m / 16 / Power(place) % 16
      {
        assert n / Power(place + 1) % 16 == m / Power(place + 1) % 16;
        DivideTwice(n, Power(place));
        DivideTwice(m, Power(place));
      }
      DigitsDetermine(n / 16, m / 16, k - 1);
    }
  }

  lemma {:induction false} DivideTwice(n: nat, p: nat)
    requires p > 0
    ensures n / (16 * p) == n / 16 / p
  {
    RemainderIs(n, 16 * p, n / 16 / p, n / 16 % p * 16 + n % 16);
  }

  lemma {:induction false} HexDigitsDiffer(a: nat, b: nat)
    requires a < 16 && b < 16 && HEX[a] == HEX[b]
    ensures a == b
  {
  }

  /** Lines with different numbers differ, up to the number of a 64-bit counter. */
  lemma {:induction false} UniqueLinesDiffer(n: nat, m: nat)
    requires n != m && n < Power(16) && m < Power(16)
    ensures UniqueLine(n) != UniqueLine(m)
  {
    if UniqueLine(n) == UniqueLine(m) {
      forall place | 0 <= place < 16
        ensures n / Power(place) % 16 == m / Power(place) % 16
      {
        assert UniqueLine(n)[20 - place] == UniqueLine(m)[20 - place];
        HexDigitsDiffer(n / Power(place) % 16, m / Power(place) % 16);
      }
      DigitsDetermine(n, m, 16);
    }
  }

  /** All complete lines of the unique stream differ pairwise. */
  lemma {:induction false} CompleteLinesDiffer(output: string, n: nat, m: nat)
    requires forall i | 0 <= i < |output| :: output[i] == UniqueStreamByte(i)
    requires n < m < Power(16) && LINE_BYTES * (m + 1) <= |output|
    ensures output[LINE_BYTES * n..][..LINE_BYTES] != output[LINE_BYTES * m..][..LINE_BYTES]
  {
    hide UniqueLine, UniqueStreamByte, Power;
    UniqueLineInStream(n);
    UniqueLineInStream(m);
    assert output[LINE_BYTES * n..][..LINE_BYTES] == UniqueLine(n);
    assert output[LINE_BYTES * m..][..LINE_BYTES] == UniqueLine(m);
    UniqueLinesDiffer(n, m);
  }

  // ----- The benchmark

  datatype OutputType = RepeatedLines | UniqueLines

  /** Byte `i` of the output. */
  function OutputByte(i: nat, outputType: OutputType): char {
    match outputType
    case RepeatedLines => LineByte(i % LINE_BYTES)
    case UniqueLines => UniqueStreamByte(i)
  }

  /** Write `bytes` bytes of output; `writes` are the sizes of the single writes. */
  method WriteOutputBenchmark(bytes: nat, outputType: OutputType) returns (output: string, writes: seq<nat>)
    ensures |output| == bytes && forall i | 0 <= i < bytes :: output[i] == OutputByte(i, outputType)
    ensures TotalBytes(writes) == bytes && forall w | w in writes :: 0 < w <= WRITE_BYTES
  {
    hide RepeatedPayload, Flatten, LineByte, UniqueStreamByte;
    var payloads;
    match outputType {
      case RepeatedLines => payloads := RepeatedPayloads();
      case UniqueLines =>
        var unique := UniquePayload(bytes);
        payloads := [unique];
    }
    output, writes := WritePayloads(payloads, bytes);
    forall i | 0 <= i < bytes
      ensures output[i] == OutputByte(i, outputType)
    {
      match outputType {
        case RepeatedLines => RepeatedIsSeamless(payloads, output, i);
        case UniqueLines => OneRound(payloads[0], i);
      }
    }
  }

  lemma {:induction false} OneRound(payload: string, i: nat)
    requires i < |payload|
    ensures Flatten([payload]) == payload && i % |payload| == i
  {
    assert [payload][1..] == [];
    RemainderIs(i, |payload|, 0, i);
  }

  // ----- The lines of the output

  /** Line `k` of the output. */
  function LineOf(output: string, k: nat): string
    requires LINE_BYTES * (k + 1) <= |output|
  {
    output[LINE_BYTES * k..LINE_BYTES * (k + 1)]
  }

  function HexValue(c: char): nat {
    if '0' <= c <= '9' then c as int - '0' as int else if 'a' <= c <= 'f' then c as int - 'a' as int + 10 else 0
  }

  /** The number that hexadecimal digits stand for. */
  function ReadHex(s: string): nat {
    if s == "" then 0 else 16 * ReadHex(s[..|s| - 1]) + HexValue(s[|s| - 1])
  }

  function HexDigits(n: nat, count: nat): (digits: string)
    ensures |digits| == count
  {
    seq(count, i requires 0 <= i < count => HexDigit(n, count - 1 - i))
  }

  lemma {:induction false} HexReadsBack(n: nat, count: nat)
    requires n < Power(count)
    ensures ReadHex(HexDigits(n, count)) == n
    decreases count
  {
    if count > 0 {
      var digits := HexDigits(n, count);
      forall i | 0 <= i < count - 1
        ensures digits[i] == HexDigits(n / 16, count - 1)[i]
      {
        var place := count - 2 - i;
        assert Power(place + 1) == 16 * Power(place);
        DivideTwice(n, Power(place));
        assert digits[i] == HexDigit(n, place + 1) && HexDigits(n / 16, count - 1)[i] == HexDigit(n / 16, place);
      }
      HexReadsBack(n / 16, count - 1);
      assert digits[..count - 1] == HexDigits(n / 16, count - 1);
      assert digits[count - 1] == HexDigit(n, 0) && Power(0) == 1 && n / 1 == n;
      HexCharacter(n % 16);
    }
  }

  lemma {:induction false} HexCharacter(d: nat)
    requires d < 16
    ensures HexValue(HEX[d]) == d
  {
  }

  /** The text of the benchmark, started at a place in it and continued from its start. */
  function Rotated(from: nat): string {
    TEXT[from % |TEXT|..] + TEXT[..from % |TEXT|]
  }

  /** A unique line: its number in sixteen hexadecimal digits, and the text from there. */
  lemma {:induction false} UniqueLineReads(n: nat)
    requires n < Power(16)
    ensures var line := UniqueLine(n);
      && line[..5] == "line " && ReadHex(line[5..21]) == n && line[21] == ' '
      && line[22..LINE_BYTES - 1] == Rotated(n)[..LINE_BYTES - 23] && line[LINE_BYTES - 1] == '\n'
  {
    var line := UniqueLine(n);
    HexReadsBack(n, 16);
    TextIs();
    hide HexDigit, Power, ReadHex, TEXT;
    assert line[5..21] == HexDigits(n, 16);
    TextFrom(n);
  }

  lemma {:induction false} TextFrom(n: nat)
    ensures |Rotated(n)| == |TEXT| == 64 && UniqueLine(n)[22..LINE_BYTES - 1] == Rotated(n)[..LINE_BYTES - 23]
  {
    TextIs();
    hide TEXT, Rotated;
    RotatedAt(n, 0);
    forall c | 22 <= c < LINE_BYTES - 1
      ensures UniqueLine(n)[c] == Rotated(n)[c - 22]
    {
      RotatedAt(n, c - 22);
    }
  }

  lemma {:induction false} RotatedAt(from: nat, i: nat)
    requires i < |TEXT|
    ensures |Rotated(from)| == |TEXT| && Rotated(from)[i] == TEXT[(from + i) % |TEXT|]
  {
    assert |TEXT| == 64;
    hide TEXT;
    WrapsAround(from, i);
  }

  lemma {:induction false} WrapsAround(from: nat, i: nat)
    requires i < 64
    ensures (from + i) % 64 == if from % 64 + i < 64 then from % 64 + i else from % 64 + i - 64
  {
    var q, r := from / 64, from % 64;
    RemainderIs(from + i, 64, if r + i < 64 then q else q + 1, if r + i < 64 then r + i else r + i - 64);
  }

  /** A repeated line: the text, and its beginning again. */
  lemma {:induction false} RepeatedLine(k: nat)
    ensures seq(LINE_BYTES, c requires 0 <= c < LINE_BYTES => StreamByte(LINE_BYTES * k + c)) ==
      TEXT + TEXT[..LINE_BYTES - 1 - |TEXT|] + "\n"
  {
    var line := seq(LINE_BYTES, c requires 0 <= c < LINE_BYTES => StreamByte(LINE_BYTES * k + c));
    var text := TEXT + TEXT[..LINE_BYTES - 1 - |TEXT|] + "\n";
    assert |TEXT| == 64;
    hide TEXT;
    forall c | 0 <= c < LINE_BYTES
      ensures line[c] == text[c]
    {
      RemainderIs(LINE_BYTES * k + c, LINE_BYTES, k, c);
      if c < LINE_BYTES - 1 {
        RemainderIs(c, 64, if c < 64 then 0 else 1, if c < 64 then c else c - 64);
      }
    }
  }

  /** The complete lines that are written: all alike, or each with its number; either way
      a newline ends every eightieth byte, and no other byte is one. */
  lemma {:induction false} LinesWritten(output: string, outputType: OutputType, k: nat)
    requires forall i | 0 <= i < |output| :: output[i] == OutputByte(i, outputType)
    requires LINE_BYTES * (k + 1) <= |output|
    ensures outputType == RepeatedLines ==> LineOf(output, k) == TEXT + TEXT[..LINE_BYTES - 1 - |TEXT|] + "\n"
    ensures outputType == UniqueLines ==> LineOf(output, k) == UniqueLine(k)
    ensures forall c | 0 <= c < LINE_BYTES :: LineOf(output, k)[c] == '\n' <==> c == LINE_BYTES - 1
  {
    var line := LineOf(output, k);
    match outputType
    case RepeatedLines =>
      RepeatedLine(k);
      hide TEXT, StreamByte, LineByte;
      forall c | 0 <= c < LINE_BYTES
        ensures line[c] == StreamByte(LINE_BYTES * k + c)
      {
        StreamByteIs(LINE_BYTES * k + c);
      }
      assert line == seq(LINE_BYTES, c requires 0 <= c < LINE_BYTES => StreamByte(LINE_BYTES * k + c));
      NoNewlineInText();
    case UniqueLines =>
      UniqueLineInStream(k);
      hide UniqueByte, UniqueStreamByte;
      assert line == UniqueLine(k);
      NewlineLast(k);
  }

  lemma {:induction false} StreamByteIs(i: nat)
    ensures StreamByte(i) == LineByte(i % LINE_BYTES)
  {
  }

  lemma {:induction false} LettersAreNoNewlines()
    ensures '\n' !in LOWER && '\n' !in UPPER && |LOWER| == |UPPER| == 26
  {
  }

  lemma {:induction false} TextIs()
    ensures |TEXT| == 64 && |HEX| == 16 && '\n' !in TEXT && '\n' !in HEX
  {
    LettersAreNoNewlines();
    assert '\n' !in DIGITS && |DIGITS| == 10;
    hide DIGITS, LOWER, UPPER;
  }

  lemma {:induction false} NoNewlineInText()
    ensures '\n' !in TEXT && '\n' !in HEX && |TEXT| == 64 && |HEX| == 16
    ensures var line := TEXT + TEXT[..LINE_BYTES - 1 - |TEXT|] + "\n";
      |line| == LINE_BYTES && forall c | 0 <= c < LINE_BYTES :: line[c] == '\n' <==> c == LINE_BYTES - 1
  {
    TextIs();
    hide TEXT;
    var more := TEXT[..LINE_BYTES - 1 - |TEXT|];
    assert forall c | 0 <= c < |more| :: more[c] == TEXT[c];
  }

  lemma {:induction false} NewlineLast(n: nat)
    ensures forall c | 0 <= c < LINE_BYTES :: UniqueLine(n)[c] == '\n' <==> c == LINE_BYTES - 1
  {
    NoNewlineInText();
    hide TEXT, HEX;
    forall c | 0 <= c < LINE_BYTES - 1
      ensures UniqueByte(n, c) != '\n'
    {
      if 5 <= c < 21 {
        assert HexDigit(n, 20 - c) in HEX;
      } else if 22 <= c {
        assert TEXT[(n + (c - 22)) % |TEXT|] in TEXT;
      }
    }
  }
}
