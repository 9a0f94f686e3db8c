/** Splitting the satellites in view into GSV sentences of up to four: the text. */
module GsvText {
  import opened Options
  import opened NmeaText

  const MAX_LENGTH: nat := 200

  predicate Int32(n: int) {
    -0x8000_0000 <= n < 0x8000_0000
  }

  datatype System = Gps | Glonass

  /** What a sentence shows of one satellite; no signal-to-noise ratio if it is not positive. */
  datatype Shown = Shown(prn: int, elevation: int, azimuth: int, snr: Option<int>)

  function Talker(sys: System): (t: string)
    ensures |t| == 6 && ',' !in t
  {
    match sys
    case Gps => "$GPGSV"
    case Glonass => "$GLGSV"
  }

  function Header(sys: System, total: int, number: int, count: int): string {
    Talker(sys) + "," + Decimal(total, 0) + "," + Decimal(number, 0) + "," + Decimal(count, 2)
  }

  function Angles(sv: Shown): string {
    "," + Decimal(sv.prn, 2) + "," + Decimal(sv.elevation, 2) + "," + Decimal(sv.azimuth, 3) + ","
  }

  function Snr(sv: Shown): string {
    if sv.snr.Some? then Decimal(sv.snr.value, 2) else ""
  }

  function Body(svs: seq<Shown>): string {
    if svs == [] then "" else Body(svs[..|svs| - 1]) + Angles(svs[|svs| - 1]) + Snr(svs[|svs| - 1])
  }

  function Total(count: nat): nat {
    count / 4 + (if count % 4 != 0 then 1 else 0)
  }

  function Chunk(list: seq<Shown>, k: nat): seq<Shown>
    requires k < Total(|list|)
  {
    list[4 * k..if 4 * k + 4 <= |list| then 4 * k + 4 else |list|]
  }

  function Blank(sys: System): string {
    Talker(sys) + ",1,1,0,"
  }

  function Sentence(sys: System, list: seq<Shown>, k: nat): string
    requires k < Total(|list|)
  {
    Header(sys, Total(|list|), k + 1, |list|) + Body(Chunk(list, k))
  }

  function Sentences(sys: System, list: seq<Shown>): seq<string> {
    if list == [] then [Blank(sys)]
    else seq(Total(|list|), k requires 0 <= k < Total(|list|) => Sentence(sys, list, k))
  }

  // ---------- The split ----------

  function Chunks(list: seq<Shown>): seq<seq<Shown>> {
    seq(Total(|list|), k requires 0 <= k < Total(|list|) => Chunk(list, k))
  }

  function Flat<T>(parts: seq<seq<T>>): seq<T> {
    if parts == [] then [] else parts[0] + Flat(parts[1..])
  }

  lemma FlatOfOne<T>(part: seq<T>)
    ensures Flat([part]) == part
  {
    assert [part][1..] == [];
  }

  /** What is left of the list after the first `k` sentences. */
  function Rest(list: seq<Shown>, k: nat): seq<Shown> {
    if 4 * k <= |list| then list[4 * k..] else []
  }

  lemma FirstChunk(list: seq<Shown>, k: nat)
    requires k < Total(|list|)
    ensures Chunk(list, k) + Rest(list, k + 1) == Rest(list, k)
  {
  }

  lemma {:induction false} ChunksAreRest(list: seq<Shown>, k: nat)
    requires k <= Total(|list|)
    ensures Flat(Chunks(list)[k..]) == Rest(list, k)
    decreases Total(|list|) - k
  {
    if k < Total(|list|) {
      ChunksAreRest(list, k + 1);
      FirstChunk(list, k);
      assert Chunks(list)[k..][1..] == Chunks(list)[k + 1..];
    }
  }

  /** The least number of sentences that hold the list: four satellites in each but the last, one to
      four in the last, and together the list in order. */
  lemma ChunksPartition(list: seq<Shown>)
    ensures 4 * Total(|list|) - 4 < |list| <= 4 * Total(|list|)
    ensures forall k | 0 <= k < Total(|list|) - 1 :: |Chunk(list, k)| == 4
    ensures list != [] ==> 1 <= |Chunk(list, Total(|list|) - 1)| <= 4
    ensures Flat(Chunks(list)) == list
  {
    ChunksAreRest(list, 0);
    assert Chunks(list)[0..] == Chunks(list);
  }

  // ---------- Reading the sentences back ----------

  function ReadGroup(fs: seq<string>, k: nat): Shown
    requires 4 * k + 4 <= |fs|
  {
    Shown(Number(fs[4 * k]), Number(fs[4 * k + 1]), Number(fs[4 * k + 2]),
          if fs[4 * k + 3] == "" then None else Some(Number(fs[4 * k + 3])))
  }

  /** Four fields for each satellite. */
  function ReadGroups(fs: seq<string>, n: nat): seq<Shown>
    requires 4 * n <= |fs|
  {
    if n == 0 then [] else ReadGroups(fs, n - 1) + [ReadGroup(fs, n - 1)]
  }

  function ReadSentence(s: string): seq<Shown> {
    var fs := Fields(s);
    if |fs| < 4 then [] else ReadGroups(fs[4..], (|fs| - 4) / 4)
  }

  function ReadEach(ss: seq<string>): seq<seq<Shown>> {
    seq(|ss|, i requires 0 <= i < |ss| => ReadSentence(ss[i]))
  }

  function ReadAll(ss: seq<string>): seq<Shown> {
    Flat(ReadEach(ss))
  }

  function SvFields(sv: Shown): seq<string> {
    [Decimal(sv.prn, 2), Decimal(sv.elevation, 2), Decimal(sv.azimuth, 3), Snr(sv)]
  }

  function GroupFields(svs: seq<Shown>): (fs: seq<string>)
    ensures |fs| == 4 * |svs|
  {
    if svs == [] then [] else GroupFields(svs[..|svs| - 1]) + SvFields(svs[|svs| - 1])
  }

  lemma SvReads(sv: Shown)
    ensures forall f | f in SvFields(sv) :: ',' !in f
    ensures ReadGroup(SvFields(sv), 0) == sv
  {
    DecimalReads(sv.prn, 2);
    DecimalReads(sv.elevation, 2);
    DecimalReads(sv.azimuth, 3);
    if sv.snr.Some? { DecimalReads(sv.snr.value, 2); }
  }

  lemma {:induction false} GroupsPlain(svs: seq<Shown>)
    ensures forall f | f in GroupFields(svs) :: ',' !in f
  {
    if svs != [] {
      GroupsPlain(svs[..|svs| - 1]);
      SvReads(svs[|svs| - 1]);
    }
  }

  lemma {:induction false} GroupReads(svs: seq<Shown>, k: nat)
    requires k < |svs|
    ensures ReadGroup(GroupFields(svs), k) == svs[k]
  {
    var n := |svs| - 1;
    var front, last := GroupFields(svs[..n]), SvFields(svs[n]);
    if k < n {
      GroupReads(svs[..n], k);
      ReadGroupWithin(front, last, k);
    } else {
      SvReads(svs[n]);
      ReadGroupAfter(front, last, n);
    }
  }

  lemma ReadGroupWithin(a: seq<string>, b: seq<string>, k: nat)
    requires 4 * k + 4 <= |a|
    ensures ReadGroup(a + b, k) == ReadGroup(a, k)
  {
  }

  lemma ReadGroupAfter(a: seq<string>, b: seq<string>, n: nat)
    requires |a| == 4 * n && |b| == 4
    ensures ReadGroup(a + b, n) == ReadGroup(b, 0)
  {
  }

  lemma {:induction false} ReadGroupsAre(fs: seq<string>, svs: seq<Shown>, n: nat)
    requires n <= |svs| && 4 * |svs| <= |fs|
    requires forall k: nat | k < |svs| :: ReadGroup(fs, k) == svs[k]
    ensures ReadGroups(fs, n) == svs[..n]
  {
    if n > 0 { ReadGroupsAre(fs, svs, n - 1); }
  }

  lemma {:induction false} GroupsRead(svs: seq<Shown>)
    ensures ReadGroups(GroupFields(svs), |svs|) == svs
  {
    forall k: nat | k < |svs| ensures ReadGroup(GroupFields(svs), k) == svs[k] { GroupReads(svs, k); }
    ReadGroupsAre(GroupFields(svs), svs, |svs|);
  }

  lemma JoinOneMoreSv(fs: seq<string>, sv: Shown)
    requires fs != []
    ensures Join(fs + SvFields(sv)) == Join(fs) + Angles(sv) + Snr(sv)
  {
    var a, b, c := Decimal(sv.prn, 2), Decimal(sv.elevation, 2), Decimal(sv.azimuth, 3);
    JoinFour(fs, a, b, c, Snr(sv));
  }

  lemma JoinFour(fs: seq<string>, a: string, b: string, c: string, d: string)
    requires fs != []
    ensures Join(fs + [a, b, c, d]) == Join(fs) + ("," + a + "," + b + "," + c + ",") + d
  {
    JoinOneMore(fs, a);
    JoinOneMore(fs + [a], b);
    JoinOneMore(fs + [a] + [b], c);
    JoinOneMore(fs + [a] + [b] + [c], d);
    assert fs + [a, b, c, d] == fs + [a] + [b] + [c] + [d];
    FourPieces(Join(fs), a, b, c);
  }

  lemma FourPieces(s: string, a: string, b: string, c: string)
    ensures s + ("," + a + "," + b + "," + c + ",") == s + "," + a + "," + b + "," + c + ","
  {
  }

  /** The text is the fields, joined with commas. */
  lemma {:induction false} BodyJoins(fs: seq<string>, svs: seq<Shown>)
    requires fs != []
    ensures Join(fs + GroupFields(svs)) == Join(fs) + Body(svs)
  {
    if svs == [] {
      assert fs + GroupFields(svs) == fs;
      assert Join(fs) + "" == Join(fs);
    } else {
      var n := |svs| - 1;
      BodyJoins(fs, svs[..n]);
      assert fs + GroupFields(svs) == (fs + GroupFields(svs[..n])) + SvFields(svs[n]);
      JoinOneMoreSv(fs + GroupFields(svs[..n]), svs[n]);
      AppendTwo(Join(fs), Body(svs[..n]), Angles(svs[n]), Snr(svs[n]));
    }
  }

  lemma AppendTwo(a: string, b: string, c: string, d: string)
    ensures a + (b + c + d) == a + b + c + d
  {
  }

  function HeaderFields(sys: System, total: int, number: int, count: int): seq<string> {
    [Talker(sys), Decimal(total, 0), Decimal(number, 0), Decimal(count, 2)]
  }

  lemma HeaderJoins(sys: System, total: int, number: int, count: int)
    ensures Join(HeaderFields(sys, total, number, count)) == Header(sys, total, number, count)
    ensures forall f | f in HeaderFields(sys, total, number, count) :: ',' !in f
  {
    var t, a, b, c := Talker(sys), Decimal(total, 0), Decimal(number, 0), Decimal(count, 2);
    DecimalReads(total, 0);
    DecimalReads(number, 0);
    DecimalReads(count, 2);
    JoinOneMore([t], a);
    JoinOneMore([t] + [a], b);
    JoinOneMore([t] + [a] + [b], c);
    assert [t] + [a] + [b] + [c] == [t, a, b, c];
  }

  /** A sentence's fields are those of its header and then four for each satellite. */
  lemma SentenceFields(sys: System, total: int, number: int, count: int, svs: seq<Shown>)
    ensures Fields(Header(sys, total, number, count) + Body(svs))
         == HeaderFields(sys, total, number, count) + GroupFields(svs)
  {
    var fs := HeaderFields(sys, total, number, count);
    HeaderJoins(sys, total, number, count);
    GroupsPlain(svs);
    BodyJoins(fs, svs);
    FieldsOfJoin(fs + GroupFields(svs));
  }

  lemma {:induction false} GroupFieldAt(svs: seq<Shown>, j: nat, c: nat)
    requires j < |svs| && c < 4
    ensures GroupFields(svs)[4 * j + c] == SvFields(svs[j])[c]
  {
    var n := |svs| - 1;
    if j < n { GroupFieldAt(svs[..n], j, c); }
  }

  /** The header's numbers read back. */
  lemma HeaderReads(sys: System, total: int, number: int, count: int, svs: seq<Shown>)
    ensures var fs := Fields(Header(sys, total, number, count) + Body(svs));
      && |fs| == 4 + 4 * |svs| && fs[0] == Talker(sys)
      && Number(fs[1]) == total && Number(fs[2]) == number && Number(fs[3]) == count
  {
    SentenceFields(sys, total, number, count, svs);
    DecimalReads(total, 0);
    DecimalReads(number, 0);
    DecimalReads(count, 2);
  }

  /** The satellites of one sentence read back. */
  lemma SentenceReads(sys: System, total: int, number: int, count: int, svs: seq<Shown>)
    ensures ReadSentence(Header(sys, total, number, count) + Body(svs)) == svs
  {
    SentenceFields(sys, total, number, count, svs);
    ReadBehind(Header(sys, total, number, count) + Body(svs),
               HeaderFields(sys, total, number, count), GroupFields(svs), |svs|);
    GroupsRead(svs);
  }

  lemma {:induction false} ReadBehind(s: string, head: seq<string>, groups: seq<string>, n: nat)
    requires Fields(s) == head + groups && |head| == 4 && |groups| == 4 * n
    ensures ReadSentence(s) == ReadGroups(groups, n)
  {
    var fs := head + groups;
    assert fs[4..] == groups && (|fs| - 4) / 4 == n;
  }

  lemma OneSentenceReads(sys: System, list: seq<Shown>, k: nat)
    requires k < Total(|list|)
    ensures ReadSentence(Sentence(sys, list, k)) == Chunk(list, k)
  {
    SentenceReads(sys, Total(|list|), k + 1, |list|, Chunk(list, k));
  }

  lemma BlankReads(sys: System)
    ensures ReadSentence(Blank(sys)) == []
  {
    var t := Talker(sys);
    JoinOneMore([t], "1");
    JoinOneMore([t] + ["1"], "1");
    JoinOneMore([t] + ["1"] + ["1"], "0");
    JoinOneMore([t] + ["1"] + ["1"] + ["0"], "");
    assert [t] + ["1"] + ["1"] + ["0"] + [""] == [t, "1", "1", "0", ""];
    assert Join([t, "1", "1", "0", ""]) == Blank(sys);
    FieldsOfJoin([t, "1", "1", "0", ""]);
  }

  /** There are as many sentences as needed to hold the list, or one if it is empty, and reading them
      back gives every satellite of the list, in order, with the numbers printed, and nothing else. */
  lemma SentencesRead(sys: System, list: seq<Shown>)
    ensures |Sentences(sys, list)| == if list == [] then 1 else Total(|list|)
    ensures ReadAll(Sentences(sys, list)) == list
  {
    var ss := Sentences(sys, list);
    if list == [] {
      BlankReads(sys);
      FlatOfOne(ReadSentence(Blank(sys)));
      assert ReadEach(ss) == [ReadSentence(Blank(sys))];
    } else {
      forall k | 0 <= k < |ss| ensures ReadSentence(ss[k]) == Chunk(list, k) { OneSentenceReads(sys, list, k); }
      assert ReadEach(ss) == Chunks(list);
      ChunksPartition(list);
    }
  }
}
