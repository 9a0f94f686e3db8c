/** The loops that produce the sentences in one reused buffer. */
module GsvSentences {
  import opened Sequences
  import opened Options
  import opened NmeaText
  import opened GsvText

  datatype Sv = Sv(prn: int, elevation: real, azimuth: real, snr: real)

  /** `(int)(0.5 + x)`, which truncates towards zero. */
  function Rounded(x: real): int {
    var y := 0.5 + x;
    if y >= 0.0 then y.Floor else -((-y).Floor)
  }

  predicate Printable(sv: Sv) {
    Int32(sv.prn) && Int32(Rounded(sv.elevation)) && Int32(Rounded(sv.azimuth)) && Int32(Rounded(sv.snr))
  }

  /** A satellite for which the conversions to int are defined. */
  type PrintableSv = sv: Sv | Printable(sv) witness Sv(0, 0.0, 0.0, 0.0)

  predicate InRange(sv: Shown) {
    && Int32(sv.prn) && Int32(sv.elevation) && Int32(sv.azimuth)
    && (sv.snr.Some? ==> 0 <= sv.snr.value && Int32(sv.snr.value))
  }

  type Rounded32 = sv: Shown | InRange(sv) witness Shown(0, 0, 0, None)

  function Show(sv: PrintableSv): Rounded32 {
    Shown(sv.prn, Rounded(sv.elevation), Rounded(sv.azimuth),
          if sv.snr > 0.0 then Some(Rounded(sv.snr)) else None)
  }

  function ShowAll(svs: seq<PrintableSv>): (shown: seq<Rounded32>)
    ensures |shown| == |svs|
    ensures forall i | 0 <= i < |svs| :: shown[i] == Show(svs[i])
  {
    if svs == [] then [] else [Show(svs[0])] + ShowAll(svs[1..])
  }

  predicate Belongs(prn: int, sys: System) {
    match sys
    case Gps => 1 <= prn <= 32
    case Glonass => 65 <= prn <= 96
  }

  function Select(svs: seq<Shown>, sys: System): seq<Shown> {
    if svs == [] then []
    else if Belongs(svs[0].prn, sys) then [svs[0]] + Select(svs[1..], sys)
    else Select(svs[1..], sys)
  }

  // ---------- Lengths ----------

  /** A star, two digits of checksum, carriage return and line feed. */
  const TRAILER_LENGTH: nat := 5

  /** With its trailer and the NUL the sentence fits the buffer. */
  predicate Sendable(sentence: string) {
    |sentence| + TRAILER_LENGTH + 1 <= MAX_LENGTH
  }

  lemma Int32Fits(n: int, width: nat)
    requires Int32(n) && width <= 10
    ensures |Decimal(n, width)| <= if n < 0 then 11 else 10
  {
    assert Pow10(10) == 10_000_000_000 by {
      assert Pow10(5) == 100_000;
    }
    DecimalFits(n, width, 10);
  }

  lemma HeaderFits(sys: System, total: nat, number: nat, count: nat)
    requires Int32(total) && Int32(number) && Int32(count)
    ensures |Header(sys, total, number, count)| <= 39
  {
    Int32Fits(total, 0);
    Int32Fits(number, 0);
    Int32Fits(count, 2);
  }

  lemma SvFits(sv: Rounded32, sys: System)
    requires Belongs(sv.prn, sys)
    ensures |Angles(sv)| <= 28 && |Snr(sv)| <= 10
  {
    assert Pow10(1) == 10 && Pow10(2) == 100;
    DecimalFits(sv.prn, 2, 2);
    Int32Fits(sv.elevation, 2);
    Int32Fits(sv.azimuth, 3);
    if sv.snr.Some? { Int32Fits(sv.snr.value, 2); }
  }

  lemma {:induction false} BodyFits(svs: seq<Rounded32>, sys: System)
    requires forall i | 0 <= i < |svs| :: Belongs(svs[i].prn, sys)
    ensures |Body(svs)| <= 38 * |svs|
  {
    if svs != [] {
      BodyFits(svs[..|svs| - 1], sys);
      SvFits(svs[|svs| - 1], sys);
    }
  }

  lemma {:induction false} ChunkFits(list: seq<Rounded32>, sys: System, k: nat)
    requires k < Total(|list|) && forall i | 0 <= i < |list| :: Belongs(list[i].prn, sys)
    ensures |Body(Chunk(list, k))| <= 152
  {
    var chunk: seq<Rounded32> := list[4 * k..if 4 * k + 4 <= |list| then 4 * k + 4 else |list|];
    BodyFits(chunk, sys);
  }

  lemma {:induction false} SentenceFits(sys: System, list: seq<Rounded32>, k: nat)
    requires Int32(|list|) && k < Total(|list|)
    requires forall i | 0 <= i < |list| :: Belongs(list[i].prn, sys)
    ensures Sendable(Sentence(sys, list, k))
  {
    ChunkFits(list, sys, k);
    HeaderFits(sys, Total(|list|), k + 1, |list|);
    Adds(Header(sys, Total(|list|), k + 1, |list|), Body(Chunk(list, k)));
  }

  lemma Adds(a: string, b: string)
    ensures |a + b| == |a| + |b|
  {
  }

  lemma {:induction false} SelectBelongs(svs: seq<Rounded32>, sys: System, i: nat)
    requires i < |Select(svs, sys)|
    ensures Belongs(Select(svs, sys)[i].prn, sys) && InRange(Select(svs, sys)[i])
  {
    if Belongs(svs[0].prn, sys) {
      if i > 0 { SelectBelongs(svs[1..], sys, i - 1); }
    } else {
      SelectBelongs(svs[1..], sys, i);
    }
  }

  /** Every sentence sent fits the buffer together with its checksum and line end. */
  lemma {:induction false} EverySentenceFits(svs: seq<Rounded32>, sys: System)
    requires |svs| < 0x8000_0000
    ensures forall s | s in Sentences(sys, Select(svs, sys)) :: |s| + 5 + 1 <= 200 && Sendable(s)
  {
    SelectIsShorter(svs, sys);
    forall i: nat | i < |Select(svs, sys)|
      ensures Belongs(Select(svs, sys)[i].prn, sys) && InRange(Select(svs, sys)[i])
    {
      SelectBelongs(svs, sys, i);
    }
    var list: seq<Rounded32> := Select(svs, sys);
    forall k: nat | k < Total(|list|) ensures Sendable(Sentence(sys, list, k)) { SentenceFits(sys, list, k); }
  }

  // ---------- The algorithm ----------

  lemma {:induction false} SelectSplit(svs: seq<Shown>, sys: System, n: nat)
    requires n < |svs|
    ensures Select(svs[..n + 1], sys)
         == Select(svs[..n], sys) + (if Belongs(svs[n].prn, sys) then [svs[n]] else [])
  {
    if n == 0 {
      assert svs[..1][1..] == [];
    } else {
      assert svs[..n + 1][1..] == svs[1..][..n] && svs[..n][1..] == svs[1..][..n - 1];
      SelectSplit(svs[1..], sys, n - 1);
    }
  }

  method Count(svs: seq<Shown>) returns (gpsCount: nat, glnCount: nat)
    ensures gpsCount == |Select(svs, Gps)| && glnCount == |Select(svs, Glonass)|
  {
    gpsCount, glnCount := 0, 0;
    var svNumber := 1;
    while svNumber <= |svs|
      invariant 1 <= svNumber <= |svs| + 1
      invariant gpsCount == |Select(svs[..svNumber - 1], Gps)|
      invariant glnCount == |Select(svs[..svNumber - 1], Glonass)|
    {
      SelectSplit(svs, Gps, svNumber - 1);
      SelectSplit(svs, Glonass, svNumber - 1);
      if Belongs(svs[svNumber - 1].prn, Gps) {
        gpsCount := gpsCount + 1;
      } else if Belongs(svs[svNumber - 1].prn, Glonass) {
        glnCount := glnCount + 1;
      }
      svNumber := svNumber + 1;
    }
    assert svs[..svNumber - 1] == svs;
  }

  /** `snprintf` at the marker; it fails when the text and its NUL do not fit in what is left. */
  method Put(sentence: string, text: string) returns (fits: bool, next: string)
    requires |sentence| < MAX_LENGTH
    ensures fits <==> |sentence + text| < MAX_LENGTH
    ensures next == if fits then sentence + text else sentence
  {
    if |text| >= MAX_LENGTH - |sentence| { return false, sentence; }
    return true, sentence + text;
  }

  method PutSv(sentence: string, sv: Shown) returns (fits: bool, next: string)
    requires |sentence| < MAX_LENGTH
    ensures |sentence + Angles(sv) + Snr(sv)| < MAX_LENGTH ==> fits && next == sentence + Angles(sv) + Snr(sv)
    ensures |next| < MAX_LENGTH
  {
    fits, next := Put(sentence, Angles(sv));
    if fits && sv.snr.Some? {
      fits, next := Put(next, Snr(sv));
    }
  }

  /** The satellites of the system from index `n` on. */
  function SelectFrom(svs: seq<Shown>, sys: System, n: nat): seq<Shown>
    decreases |svs| - n
  {
    if n >= |svs| then []
    else if Belongs(svs[n].prn, sys) then [svs[n]] + SelectFrom(svs, sys, n + 1)
    else SelectFrom(svs, sys, n + 1)
  }

  lemma {:induction false} SelectFromIsSelect(svs: seq<Shown>, sys: System, n: nat)
    requires n <= |svs|
    ensures SelectFrom(svs, sys, n) == Select(svs[n..], sys)
    decreases |svs| - n
  {
    if n < |svs| {
      SelectFromIsSelect(svs, sys, n + 1);
      assert svs[n..][1..] == svs[n + 1..];
    }
  }

  /** `text` gives what is written for one satellite. */
  ghost predicate IsText(text: Shown -> string) {
    forall sv {:trigger Angles(sv)} :: text(sv) == Angles(sv) + Snr(sv)
  }

  function Flat(text: Shown -> string, done: seq<Shown>): string {
    if done == [] then "" else Flat(text, done[..|done| - 1]) + text(done[|done| - 1])
  }

  lemma {:induction false} FlatIsBody(text: Shown -> string, done: seq<Shown>)
    requires IsText(text)
    ensures Flat(text, done) == Body(done)
  {
    if done != [] {
      var n := |done| - 1;
      FlatIsBody(text, done[..n]);
      Regroup(Body(done[..n]), Angles(done[n]), Snr(done[n]));
    }
  }

  /** The sentence so far: the header and the satellites done. */
  predicate Written(sentence: string, header: string, text: Shown -> string, done: seq<Shown>) {
    sentence == header + Flat(text, done) && |sentence| <= 39 + 38 * |done|
  }

  lemma ComesNext(svs: seq<Shown>, sys: System, n: nat, done: seq<Shown>)
    requires n < |svs| && Belongs(svs[n].prn, sys)
    ensures done + SelectFrom(svs, sys, n) == (done + [svs[n]]) + SelectFrom(svs, sys, n + 1)
  {
  }

  lemma Skipped(svs: seq<Shown>, sys: System, n: nat)
    requires n < |svs| && !Belongs(svs[n].prn, sys)
    ensures SelectFrom(svs, sys, n) == SelectFrom(svs, sys, n + 1)
  {
  }

  /** Adds up to four satellites of the system, from `svNumber` on. */
  method PutFour(header: string, svs: seq<Rounded32>, sys: System, svNumber: nat, ghost text: Shown -> string)
      returns (ok: bool, sentence: string, next: nat, ghost done: seq<Shown>)
    requires |header| <= 39 && 1 <= svNumber <= |svs| + 1 && IsText(text)
    ensures ok && svNumber <= next <= |svs| + 1
    ensures Written(sentence, header, text, done) && |done| <= 4
    ensures SelectFrom(svs, sys, svNumber - 1) == done + SelectFrom(svs, sys, next - 1)
    ensures |done| == 4 || SelectFrom(svs, sys, next - 1) == []
  {
    sentence, next, done := header, svNumber, [];
    var i := 0;
    while next <= |svs| && i < 4
      invariant svNumber <= next <= |svs| + 1 && i == |done| <= 4
      invariant Written(sentence, header, text, done)
      invariant SelectFrom(svs, sys, svNumber - 1) == done + SelectFrom(svs, sys, next - 1)
    {
      if Belongs(svs[next - 1].prn, sys) {
        ComesNext(svs, sys, next - 1, done);
        ok, sentence := PutNext(sentence, svs[next - 1], sys, header, text, done);
        if !ok { return; }
        done := done + [svs[next - 1]];
        i := i + 1;
      } else {
        Skipped(svs, sys, next - 1);
      }
      next := next + 1;
    }
    ok := true;
  }

  /** Writes the satellite that comes next, for which there is always room. */
  method PutNext(sentence: string, sv: Rounded32, sys: System,
                 ghost header: string, ghost text: Shown -> string, ghost done: seq<Shown>)
      returns (ok: bool, next: string)
    requires |done| < 4 && Belongs(sv.prn, sys) && IsText(text)
    requires Written(sentence, header, text, done)
    ensures ok && Written(next, header, text, done + [sv])
  {
    SvFits(sv, sys);
    assert (done + [sv])[..|done|] == done;
    Regroup(header, Flat(text, done), text(sv));
    Regroup(sentence, Angles(sv), Snr(sv));
    ok, next := PutSv(sentence, sv);
  }

  /** Up to four off what is left are the next chunk. */
  lemma RestSplits(list: seq<Shown>, k: nat, done: seq<Shown>, more: seq<Shown>)
    requires k < Total(|list|) && Rest(list, k) == done + more
    requires |done| <= 4 && (|done| == 4 || more == [])
    ensures done == Chunk(list, k) && more == Rest(list, k + 1)
  {
    var rest := list[4 * k..];
    assert done == rest[..|done|] && more == rest[|done|..];
  }

  lemma FinishSentence(sentence: string, header: string, text: Shown -> string, done: seq<Shown>,
                       more: seq<Shown>, sys: System, list: seq<Shown>, number: nat)
    requires 1 <= number <= Total(|list|) && Rest(list, number - 1) == done + more
    requires |done| <= 4 && (|done| == 4 || more == [])
    requires IsText(text) && Written(sentence, header, text, done)
    requires header == Header(sys, Total(|list|), number, |list|)
    ensures sentence == Sentence(sys, list, number - 1) && more == Rest(list, number)
  {
    FlatIsBody(text, done);
    RestSplits(list, number - 1, done, more);
  }

  lemma TakeOneMore<T>(s: seq<T>, k: nat)
    requires k < |s|
    ensures s[..k + 1] == s[..k] + [s[k]]
  {
  }

  method PutHeader(sys: System, total: nat, number: nat, count: nat) returns (ok: bool, sentence: string)
    requires Int32(total) && Int32(number) && Int32(count)
    ensures ok && sentence == Header(sys, total, number, count) && |sentence| <= 39
  {
    HeaderFits(sys, total, number, count);
    var header := Header(sys, total, number, count);
    assert "" + header == header;
    ok, sentence := Put("", header);
  }

  /** Sentence number `number`, with the satellites that come next. */
  method PutSentence(svs: seq<Rounded32>, sys: System, count: nat, total: nat, number: nat, svNumber: nat,
                     ghost list: seq<Shown>, ghost text: Shown -> string)
      returns (ok: bool, sentence: string, next: nat)
    requires 1 <= svNumber <= |svs| + 1 && IsText(text)
    requires count == |list| && total == Total(count) && Int32(count) && 1 <= number <= total
    requires SelectFrom(svs, sys, svNumber - 1) == Rest(list, number - 1)
    ensures ok && sentence == Sentence(sys, list, number - 1)
    ensures 1 <= next <= |svs| + 1 && SelectFrom(svs, sys, next - 1) == Rest(list, number)
  {
    var header;
    ok, header := PutHeader(sys, total, number, count);
    if !ok { return false, header, svNumber; }
    ghost var done;
    ok, sentence, next, done := PutFour(header, svs, sys, svNumber, text);
    FinishSentence(sentence, header, text, done, SelectFrom(svs, sys, next - 1), sys, list, number);
  }

  /** One system's sentences. */
  method GenerateSystem(svs: seq<Rounded32>, sys: System, count: nat) returns (ok: bool, sent: seq<string>)
    requires |svs| < 0x8000_0000 && count == |Select(svs, sys)|
    ensures ok && sent == Sentences(sys, Select(svs, sys))
  {
    if count == 0 { return true, [Blank(sys)]; }
    ghost var list := Select(svs, sys);
    SelectIsShorter(svs, sys);
    var sentenceCount := count / 4 + (if count % 4 != 0 then 1 else 0);
    var sentenceNumber, svNumber := 1, 1;
    sent := [];
    SelectFromIsSelect(svs, sys, 0);
    ghost var text := sv => Angles(sv) + Snr(sv);
    ghost var all := Sentences(sys, list);
    while sentenceNumber <= sentenceCount
      invariant 1 <= sentenceNumber <= sentenceCount + 1 && 1 <= svNumber <= |svs| + 1
      invariant sent == all[..sentenceNumber - 1]
      invariant SelectFrom(svs, sys, svNumber - 1) == Rest(list, sentenceNumber - 1)
    {
      var sentence;
      ok, sentence, svNumber :=
        PutSentence(svs, sys, count, sentenceCount, sentenceNumber, svNumber, list, text);
      if !ok { return; }
      TakeOneMore(all, sentenceNumber - 1);
      sent := sent + [sentence];
      sentenceNumber := sentenceNumber + 1;
    }
    return true, sent;
  }

  lemma {:induction false} SelectIsShorter(svs: seq<Shown>, sys: System)
    ensures |Select(svs, sys)| <= |svs|
  {
    if svs != [] { SelectIsShorter(svs[1..], sys); }
  }

  // ---------- What the sentences say of the satellites ----------

  /** The satellites with a PRN in a range, in order. */
  function InView(svs: seq<PrintableSv>, low: int, high: int): seq<PrintableSv> {
    if svs == [] then []
    else (if low <= svs[0].prn <= high then [svs[0]] else []) + InView(svs[1..], low, high)
  }

  /** `n` is within half of `x`, ties going up; below minus one half, towards zero. */
  predicate Nearest(n: int, x: real) {
    if x >= -0.5 then n as real - 0.5 <= x < n as real + 0.5
    else n as real - 1.0 < x + 0.5 <= n as real
  }

  /** The four fields of a satellite. */
  predicate SaysSv(prn: string, elevation: string, azimuth: string, snr: string, sv: Sv) {
    && Number(prn) == sv.prn && Padded(prn, 2)
    && Nearest(Number(elevation), sv.elevation) && Padded(elevation, 2)
    && Nearest(Number(azimuth), sv.azimuth) && Padded(azimuth, 3)
    && (snr == "" <==> sv.snr <= 0.0)
    && (snr != "" ==> Nearest(Number(snr), sv.snr) && Padded(snr, 2))
  }

  /** The same of the four fields from the `i`-th on. */
  predicate SaysSvAt(fs: seq<string>, i: nat, sv: Sv) {
    i + 4 <= |fs| && SaysSv(fs[i], fs[i + 1], fs[i + 2], fs[i + 3], sv)
  }

  /** One sentence: number `k + 1` of `total`, with up to four satellites from the `4 * k`-th on. */
  predicate SaysChunk(fs: seq<string>, talker: string, total: int, k: nat, svs: seq<Sv>)
    requires 4 * k < |svs|
  {
    var m := if 4 * k + 4 <= |svs| then 4 else |svs| - 4 * k;
    && |fs| == 4 + 4 * m && fs[0] == talker
    && Number(fs[1]) == total && Padded(fs[1], 1)
    && Number(fs[2]) == k + 1 && Padded(fs[2], 1)
    && Number(fs[3]) == |svs| && Padded(fs[3], 2)
    && forall j: nat | j < m ::
         SaysSvAt(fs, 4 + 4 * j, svs[4 * k + j])
  }

  /** All of one system's sentences. */
  predicate Reports(ss: seq<string>, talker: string, svs: seq<Sv>) {
    if svs == [] then ss == [talker + ",1,1,0,"]
    else
      && |ss| == (|svs| + 3) / 4
      && forall k: nat | k < |ss| :: SaysChunk(Fields(ss[k]), talker, |ss|, k, svs)
  }

  lemma RoundedIsNearest(x: real)
    ensures Nearest(Rounded(x), x)
    ensures x > 0.0 ==> Rounded(x) >= 0
  {
  }

  lemma {:induction false} SvSays(sv: PrintableSv)
    ensures var fs := SvFields(Show(sv)); SaysSv(fs[0], fs[1], fs[2], fs[3], sv)
  {
    var shown := Show(sv);
    DecimalReads(shown.prn, 2);
    DecimalReads(shown.elevation, 2);
    DecimalReads(shown.azimuth, 3);
    DecimalIsPadded(shown.prn, 2);
    DecimalIsPadded(shown.elevation, 2);
    DecimalIsPadded(shown.azimuth, 3);
    RoundedIsNearest(sv.elevation);
    RoundedIsNearest(sv.azimuth);
    if sv.snr > 0.0 {
      DecimalReads(shown.snr.value, 2);
      DecimalIsPadded(shown.snr.value, 2);
      RoundedIsNearest(sv.snr);
    }
  }

  lemma {:induction false} ShowFirst(sv: PrintableSv, rest: seq<PrintableSv>)
    ensures ShowAll([sv] + rest) == [Show(sv)] + ShowAll(rest)
  {
    assert ([sv] + rest)[1..] == rest;
  }

  lemma SelectFirst(sv: Shown, rest: seq<Shown>, sys: System)
    ensures Select([sv] + rest, sys) == if Belongs(sv.prn, sys) then [sv] + Select(rest, sys) else Select(rest, sys)
  {
    assert ([sv] + rest)[1..] == rest;
  }

  lemma {:induction false} SelectIsInView(svs: seq<PrintableSv>, sys: System, low: int, high: int)
    requires forall prn :: Belongs(prn, sys) <==> low <= prn <= high
    ensures Select(ShowAll(svs), sys) == ShowAll(InView(svs, low, high))
  {
    if svs != [] {
      var sv, rest := svs[0], svs[1..];
      SelectIsInView(rest, sys, low, high);
      SelectFirst(Show(sv), ShowAll(rest), sys);
      ShowFirst(sv, InView(rest, low, high));
    }
  }

  lemma FourTogether(fs: seq<string>, of: seq<string>, i: nat, sv: Sv)
    requires |of| == 4 && SaysSv(of[0], of[1], of[2], of[3], sv)
    requires i + 4 <= |fs| && forall j: nat | j < 4 :: fs[i + j] == of[j]
    ensures SaysSvAt(fs, i, sv)
  {
    assert fs[i + 0] == of[0];
  }

  lemma ChunkAt(list: seq<Shown>, k: nat, j: nat)
    requires k < Total(|list|) && j < |Chunk(list, k)|
    ensures 4 * k + j < |list| && Chunk(list, k)[j] == list[4 * k + j]
  {
  }

  lemma FourOfGroup(chunk: seq<Shown>, j: nat)
    requires j < |chunk|
    ensures forall f: nat | f < 4 :: GroupFields(chunk)[4 * j + f] == SvFields(chunk[j])[f]
  {
    forall f: nat | f < 4 ensures GroupFields(chunk)[4 * j + f] == SvFields(chunk[j])[f] {
      GroupFieldAt(chunk, j, f);
    }
  }

  lemma {:induction false} GroupSays(chunk: seq<Shown>, j: nat, sv: PrintableSv)
    requires j < |chunk| && chunk[j] == Show(sv)
    ensures SaysSvAt(GroupFields(chunk), 4 * j, sv)
  {
    SvSays(sv);
    FourOfGroup(chunk, j);
    FourTogether(GroupFields(chunk), SvFields(chunk[j]), 4 * j, sv);
  }

  /** The fields of the satellites in a chunk, wherever they stand. */
  lemma {:induction false} ChunkSays(svs: seq<PrintableSv>, k: nat, j: nat)
    requires k < Total(|svs|) && j < |Chunk(ShowAll(svs), k)|
    ensures 4 * k + j < |svs|
    ensures SaysSvAt(GroupFields(Chunk(ShowAll(svs), k)), 4 * j, svs[4 * k + j])
  {
    ChunkAt(ShowAll(svs), k, j);
    GroupSays(Chunk(ShowAll(svs), k), j, svs[4 * k + j]);
  }

  lemma HeaderSays(sys: System, total: int, number: int, count: int)
    ensures var fs := HeaderFields(sys, total, number, count);
      && fs[0] == (match sys case Gps => "$GPGSV" case Glonass => "$GLGSV")
      && Number(fs[1]) == total && Padded(fs[1], 1) && Number(fs[2]) == number && Padded(fs[2], 1)
      && Number(fs[3]) == count && Padded(fs[3], 2)
  {
    DecimalReads(total, 0);
    DecimalReads(number, 0);
    DecimalReads(count, 2);
    DecimalIsPadded(total, 0);
    DecimalIsPadded(number, 0);
    DecimalIsPadded(count, 2);
  }

  lemma {:induction false} SayAfterHeader(head: seq<string>, groups: seq<string>, svs: seq<Sv>, k: nat, m: nat)
    requires |head| == 4 && 4 * k + m <= |svs|
    requires forall j: nat | j < m :: SaysSvAt(groups, 4 * j, svs[4 * k + j])
    ensures forall j: nat | j < m :: SaysSvAt(head + groups, 4 + 4 * j, svs[4 * k + j])
  {
  }

  lemma {:induction false} SentenceSays(sys: System, svs: seq<PrintableSv>, k: nat)
    requires k < Total(|svs|)
    ensures SaysChunk(Fields(Sentence(sys, ShowAll(svs), k)),
                      match sys case Gps => "$GPGSV" case Glonass => "$GLGSV", Total(|svs|), k, svs)
  {
    var list := ShowAll(svs);
    var total, chunk := Total(|list|), Chunk(list, k);
    SentenceFields(sys, total, k + 1, |list|, chunk);
    HeaderSays(sys, total, k + 1, |list|);
    forall j: nat | j < |chunk| ensures SaysSvAt(GroupFields(chunk), 4 * j, svs[4 * k + j]) {
      ChunkSays(svs, k, j);
    }
    SayAfterHeader(HeaderFields(sys, total, k + 1, |list|), GroupFields(chunk), svs, k, |chunk|);
  }

  lemma {:induction false} SentencesReport(sys: System, svs: seq<PrintableSv>)
    ensures Reports(Sentences(sys, ShowAll(svs)), match sys case Gps => "$GPGSV" case Glonass => "$GLGSV", svs)
  {
    var list := ShowAll(svs);
    if svs != [] {
      forall k: nat | k < Total(|svs|)
        ensures SaysChunk(Fields(Sentences(sys, list)[k]),
                          match sys case Gps => "$GPGSV" case Glonass => "$GLGSV", Total(|svs|), k, svs)
      {
        SentenceSays(sys, svs, k);
      }
    }
  }

  /** GPS first, then GLONASS; the length limit is never reached. The numbers are rounded once, on
      the way in. */
  method GenerateSv(svs: seq<PrintableSv>) returns (ok: bool, sent: seq<string>)
    requires |svs| < 0x8000_0000
    ensures ok
    ensures exists n: nat ::
              && n <= |sent|
              && Reports(sent[..n], "$GPGSV", InView(svs, 1, 32))
              && Reports(sent[n..], "$GLGSV", InView(svs, 65, 96))
  {
    var shown := ShowAll(svs);
    var gpsCount, glnCount := Count(shown);
    ok, sent := GenerateSystem(shown, Gps, gpsCount);
    if !ok { return; }
    ghost var n := |sent|;
    SelectIsInView(svs, Gps, 1, 32);
    SentencesReport(Gps, InView(svs, 1, 32));
    var more;
    ok, more := GenerateSystem(shown, Glonass, glnCount);
    SelectIsInView(svs, Glonass, 65, 96);
    SentencesReport(Glonass, InView(svs, 65, 96));
    ghost var gps := sent;
    sent := sent + more;
    assert sent[..n] == gps && sent[n..] == more;
  }
}
