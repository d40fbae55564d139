/** Release tags and the choice of the next release candidate: scripts/release.ts:22 and 174-206. */
module ReleaseTags {
  import opened Basics
  import opened Numbers
  import opened Sorting

  // ---------------------------------------------------------------- tags

  datatype Tag = Tag(raw: string, date: string, serial: nat, rc: Option<nat>)

  predicate IsDate(s: string) {
    |s| == 8 && AllDigits(s)
  }

  function Print(date: string, serial: nat, rc: Option<nat>): string {
    "fork-" + date + "." + Suffix(serial, rc)
  }

  function Suffix(serial: nat, rc: Option<nat>): string {
    Show(serial) + CandidatePart(rc)
  }

  function CandidatePart(rc: Option<nat>): string {
    if rc.Some? then "-rc" + Show(rc.value) else ""
  }

  function LeadingDigits(s: string): (k: nat)
    ensures k <= |s| && AllDigits(s[..k]) && (k < |s| ==> !IsDigit(s[k]))
  {
    if s == "" || !IsDigit(s[0]) then 0 else
      var k := LeadingDigits(s[1..]);
      assert s[..k + 1] == [s[0]] + s[1..][..k];
      k + 1
  }

  /** The numerals of a tag: its serial and, for a candidate, its number. */
  datatype Numerals = Numerals(serial: string, rc: Option<string>)

  predicate NumeralsOk(x: Numerals) {
    IsNumeral(x.serial) && (x.rc.Some? ==> IsNumeral(x.rc.value))
  }

  /** What follows the date and its dot. */
  function SplitNumerals(rest: string): (x: Option<Numerals>)
    ensures x.Some? ==> NumeralsOk(x.value)
  {
    var k := LeadingDigits(rest);
    var serial, tail := rest[..k], rest[k..];
    if !IsNumeral(serial) then None
    else if tail == "" then Some(Numerals(serial, None))
    else if |tail| > 3 && tail[..3] == "-rc" && IsNumeral(tail[3..]) then Some(Numerals(serial, Some(tail[3..])))
    else None
  }

  function TagOf(raw: string, date: string, x: Numerals): Tag
    requires NumeralsOk(x)
  {
    Tag(raw, date, Number(x.serial), if x.rc.Some? then Some(Number(x.rc.value)) else None)
  }

  function Parse(value: string): Option<Tag> {
    if |value| < 14 || value[..5] != "fork-" || !AllDigits(value[5..13]) || value[13] != '.' then None
    else
      var x := SplitNumerals(value[14..]);
      if x.Some? then Some(TagOf(value, value[5..13], x.value)) else None
  }

  /** A number a tag can carry. */
  predicate Carried(n: nat) {
    n > 0 && Representable(n)
  }

  predicate CarriedBy(serial: nat, rc: Option<nat>) {
    Carried(serial) && (rc.Some? ==> Carried(rc.value))
  }

  /** Small enough to be printed as a numeral. */
  predicate Numeric(serial: nat, rc: Option<nat>) {
    serial < EXPONENTIAL && (rc.Some? ==> rc.value < EXPONENTIAL)
  }

  lemma {:induction false} LeadingDigitsAre(a: string, b: string)
    requires AllDigits(a) && (b == "" || !IsDigit(b[0]))
    ensures LeadingDigits(a + b) == |a|
  {
    if a != "" {
      LeadingDigitsAre(a[1..], b);
      assert (a + b)[1..] == a[1..] + b;
    } else {
      assert a + b == b;
    }
  }

  lemma SplitPrinted(serial: nat, rc: Option<nat>)
    requires CarriedBy(serial, rc) && Numeric(serial, rc)
    ensures SplitNumerals(Suffix(serial, rc)) == Some(Numerals(Show(serial), if rc.Some? then Some(Show(rc.value)) else None))
  {
    var digits, tail := Show(serial), CandidatePart(rc);
    ShowReadsBack(serial);
    if rc.Some? { ShowReadsBack(rc.value); }
    LeadingDigitsAre(digits, tail);
    assert (digits + tail)[..|digits|] == digits && (digits + tail)[|digits|..] == tail;
    if rc.Some? { assert tail[..3] == "-rc" && tail[3..] == Show(rc.value); }
  }

  lemma SplitExponentialSerial(serial: nat, rc: Option<nat>)
    requires serial >= EXPONENTIAL
    ensures SplitNumerals(Suffix(serial, rc)) == None
  {
    ShowExponential(serial);
    var rest := Suffix(serial, rc);
    assert rest[1] == Show(serial)[1];
    var k := LeadingDigits(rest);
    assert rest[1..][0] == rest[1];
    if k == 1 { assert rest[k..][0] == rest[1]; }
  }

  lemma SplitExponentialRc(serial: nat, rc: nat)
    requires Carried(serial) && serial < EXPONENTIAL && rc >= EXPONENTIAL
    ensures SplitNumerals(Suffix(serial, Some(rc))) == None
  {
    var digits, tail := Show(serial), CandidatePart(Some(rc));
    ShowReadsBack(serial);
    ShowExponential(rc);
    LeadingDigitsAre(digits, tail);
    assert (digits + tail)[|digits|..] == tail && tail[3..] == Show(rc);
    assert Show(rc)[1] in Show(rc);
  }

  lemma PrintedPieces(date: string, rest: string)
    requires |date| == 8 && rest != ""
    ensures var raw := "fork-" + date + "." + rest;
      |raw| >= 15 && raw[..5] == "fork-" && raw[5..13] == date && raw[13] == '.' && raw[14..] == rest
  {
  }

  lemma SuffixNotEmpty(serial: nat, rc: Option<nat>)
    ensures Suffix(serial, rc) != ""
  {
  }

  /** A printed tag parses to what was printed, exactly when its numbers are printed without an exponent. */
  lemma PrintParses(date: string, serial: nat, rc: Option<nat>)
    requires IsDate(date) && CarriedBy(serial, rc)
    ensures Parse(Print(date, serial, rc)) ==
      if Numeric(serial, rc) then Some(Tag(Print(date, serial, rc), date, serial, rc)) else None
  {
    SuffixNotEmpty(serial, rc);
    PrintedPieces(date, Suffix(serial, rc));
    if Numeric(serial, rc) {
      SplitPrinted(serial, rc);
      ShowReadsBack(serial);
      if rc.Some? { ShowReadsBack(rc.value); }
    } else if serial >= EXPONENTIAL {
      SplitExponentialSerial(serial, rc);
    } else {
      SplitExponentialRc(serial, rc.value);
    }
  }

  lemma Pieces(value: string)
    requires |value| >= 14 && value[..5] == "fork-" && value[13] == '.'
    ensures value == "fork-" + value[5..13] + "." + value[14..]
  {
    assert value == value[..5] + value[5..13] + [value[13]] + value[14..];
  }

  /** The text behind the two numerals. */
  function Joined(x: Numerals): string {
    x.serial + if x.rc.Some? then "-rc" + x.rc.value else ""
  }

  lemma SplitJoins(rest: string)
    requires SplitNumerals(rest).Some?
    ensures Joined(SplitNumerals(rest).value) == rest
  {
    var k := LeadingDigits(rest);
    var tail := rest[k..];
    assert rest == rest[..k] + tail;
    if tail == "" {
      assert rest[..k] + "" == rest[..k];
    } else {
      assert tail == "-rc" + tail[3..];
    }
  }

  predicate AllShown(x: Numerals)
    requires NumeralsOk(x)
  {
    Shown(x.serial) && (x.rc.Some? ==> Shown(x.rc.value))
  }

  lemma TagCarries(raw: string, date: string, x: Numerals)
    requires NumeralsOk(x)
    ensures CarriedBy(TagOf(raw, date, x).serial, TagOf(raw, date, x).rc)
  {
    NumeralNumber(x.serial);
    if x.rc.Some? { NumeralNumber(x.rc.value); }
  }

  /** Printing the numbers of the numerals gives the text back exactly when each numeral is how its number is printed. */
  lemma SuffixIsText(x: Numerals, rest: string)
    requires NumeralsOk(x) && SplitNumerals(rest) == Some(x)
    ensures var t := TagOf("", "", x); Suffix(t.serial, t.rc) == rest <==> AllShown(x)
  {
    var t := TagOf("", "", x);
    SplitJoins(rest);
    TagCarries("", "", x);
    if Suffix(t.serial, t.rc) == rest {
      if t.serial >= EXPONENTIAL {
        SplitExponentialSerial(t.serial, t.rc);
      } else if t.rc.Some? && t.rc.value >= EXPONENTIAL {
        SplitExponentialRc(t.serial, t.rc.value);
      }
      SplitPrinted(t.serial, t.rc);
    }
  }

  /**
    A parsed tag carries its own text, a date, and numbers; and it prints as that text exactly when
    each numeral is how its number is printed.
   */
  lemma ParsePrints(value: string)
    requires Parse(value).Some?
    ensures var t, x := Parse(value).value, SplitNumerals(value[14..]).value;
      && t.raw == value && IsDate(t.date) && CarriedBy(t.serial, t.rc)
      && (Print(t.date, t.serial, t.rc) == value <==> AllShown(x))
  {
    var t, x := Parse(value).value, SplitNumerals(value[14..]).value;
    TagCarries(value, value[5..13], x);
    SuffixIsText(x, value[14..]);
    Pieces(value);
    SamePieces(t.date, Suffix(t.serial, t.rc), value[14..]);
  }

  lemma SamePieces(date: string, a: string, b: string)
    ensures "fork-" + date + "." + a == "fork-" + date + "." + b <==> a == b
  {
    var head := "fork-" + date + ".";
    assert (head + a)[|head|..] == a && (head + b)[|head|..] == b;
  }

  /** So below 2^53 every tag prints as its text. */
  lemma SafePrints(value: string)
    requires Parse(value).Some?
    requires var t := Parse(value).value; t.serial < SAFE && (t.rc.Some? ==> t.rc.value < SAFE)
    ensures var t := Parse(value).value; Print(t.date, t.serial, t.rc) == value
  {
    var x := SplitNumerals(value[14..]).value;
    SafeIsShown(x.serial);
    if x.rc.Some? { SafeIsShown(x.rc.value); }
    ParsePrints(value);
  }

  // ---------------------------------------------------------------- release lines

  /** The candidates of one serial, and its stable tag. */
  datatype Line = Line(serial: nat, stable: Option<string>, rcs: seq<Tag>)

  predicate Of(t: Tag, date: string, serial: nat) {
    t.date == date && t.serial == serial
  }

  function Candidates(tags: seq<Tag>, date: string, serial: nat): seq<Tag>
    decreases |tags|
  {
    if tags == [] then [] else
      var t := tags[|tags| - 1];
      Candidates(tags[..|tags| - 1], date, serial) + if Of(t, date, serial) && t.rc.Some? then [t] else []
  }

  function Stable(tags: seq<Tag>, date: string, serial: nat): Option<string>
    decreases |tags|
  {
    if tags == [] then None else
      var t := tags[|tags| - 1];
      if Of(t, date, serial) && t.rc == None then Some(t.raw) else Stable(tags[..|tags| - 1], date, serial)
  }

  function Serials(tags: seq<Tag>, date: string): set<nat> {
    set t <- tags | t.date == date :: t.serial
  }

  function Gathered(tags: seq<Tag>, date: string, serial: nat): Line {
    Line(serial, Stable(tags, date, serial), Candidates(tags, date, serial))
  }

  /** A stable tag without any candidate of its serial is refused. */
  predicate NoLineage(tags: seq<Tag>, date: string) {
    exists serial <- Serials(tags, date) ::
      Stable(tags, date, serial).Some? && Candidates(tags, date, serial) == []
  }

  predicate SortedRcs(rcs: seq<Tag>) {
    (forall t <- rcs :: t.rc.Some?) && forall i, j :: 0 <= i < j < |rcs| ==> rcs[i].rc.value <= rcs[j].rc.value
  }

  /** A line with its candidates in ascending order. */
  predicate LineOk(line: Line, tags: seq<Tag>, date: string) {
    && line.stable == Stable(tags, date, line.serial)
    && multiset(line.rcs) == multiset(Candidates(tags, date, line.serial)) && SortedRcs(line.rcs)
  }

  /** The lines of a date: one for every serial, ascending. */
  predicate LinesOk(lines: seq<Line>, tags: seq<Tag>, date: string) {
    && (forall i, j :: 0 <= i < j < |lines| ==> lines[i].serial < lines[j].serial)
    && (set line <- lines :: line.serial) == Serials(tags, date)
    && forall line <- lines :: LineOk(line, tags, date)
  }

  lemma {:induction false} CandidatesAre(tags: seq<Tag>, date: string, serial: nat)
    ensures forall t :: t in Candidates(tags, date, serial) <==> t in tags && Of(t, date, serial) && t.rc.Some?
    decreases |tags|
  {
    if tags != [] {
      CandidatesAre(tags[..|tags| - 1], date, serial);
      assert tags == tags[..|tags| - 1] + [tags[|tags| - 1]];
    }
  }

  lemma {:induction false} StableIs(tags: seq<Tag>, date: string, serial: nat)
    ensures Stable(tags, date, serial).Some? <==> exists t <- tags :: Of(t, date, serial) && t.rc == None
    decreases |tags|
  {
    if tags != [] {
      StableIs(tags[..|tags| - 1], date, serial);
      assert tags == tags[..|tags| - 1] + [tags[|tags| - 1]];
    }
  }

  // ---------------------------------------------------------------- the next candidate

  /** The serial and the candidate number of the next tag. */
  function Chosen(lines: seq<Line>): (nat, nat) {
    if lines == [] then (1, 1)
    else
      var latest := lines[|lines| - 1];
      if latest.stable.Some? then (Plus(latest.serial), 1) else (latest.serial, Plus(LastNumber(latest)))
  }

  function LastNumber(line: Line): nat {
    if line.rcs == [] then 0 else
      var rc := line.rcs[|line.rcs| - 1].rc;
      if rc.Some? then rc.value else 0
  }

  function NextRc(lines: seq<Line>, date: string): string {
    Print(date, Chosen(lines).0, Some(Chosen(lines).1))
  }

  /** The one number the choice adds one to. */
  function Incremented(lines: seq<Line>): nat {
    if lines == [] then 0
    else if lines[|lines| - 1].stable.Some? then lines[|lines| - 1].serial
    else LastNumber(lines[|lines| - 1])
  }

  /** By serial, then by candidate number; a stable tag comes after every candidate of its serial. */
  predicate Before(t: Tag, u: Tag) {
    t.serial < u.serial || (t.serial == u.serial && t.rc.Some? && (u.rc.Some? ==> t.rc.value < u.rc.value))
  }

  lemma LatestIsLast(lines: seq<Line>, tags: seq<Tag>, date: string, t: Tag)
    requires LinesOk(lines, tags, date) && t in tags && t.date == date
    ensures lines != [] && t.serial <= lines[|lines| - 1].serial
  {
    assert t.serial in Serials(tags, date);
    var line :| line in lines && line.serial == t.serial;
  }

  lemma LastCandidate(line: Line, tags: seq<Tag>, date: string, t: Tag)
    requires LineOk(line, tags, date) && t in tags && Of(t, date, line.serial) && t.rc.Some?
    ensures line.rcs != []
    ensures var last := line.rcs[|line.rcs| - 1]; last in tags && last.rc.Some? && t.rc.value <= last.rc.value
  {
    CandidatesAre(tags, date, line.serial);
    assert t in multiset(line.rcs);
    var i :| 0 <= i < |line.rcs| && line.rcs[i] == t;
    var last := line.rcs[|line.rcs| - 1];
    assert last in multiset(line.rcs);
  }

  predicate Parsed(tags: seq<Tag>) {
    forall t <- tags :: Parse(t.raw) == Some(t)
  }

  function Latest(lines: seq<Line>): nat {
    if lines == [] then 0 else lines[|lines| - 1].serial
  }

  /** The latest serial has a stable tag or at least one candidate. */
  lemma LatestHasTag(lines: seq<Line>, tags: seq<Tag>, date: string)
    requires LinesOk(lines, tags, date) && lines != []
    ensures var latest := lines[|lines| - 1];
      && (exists t <- tags :: Of(t, date, latest.serial))
      && (latest.stable == None ==> latest.rcs != [] && var last := latest.rcs[|latest.rcs| - 1];
            last in tags && Of(last, date, latest.serial))
  {
    var latest := lines[|lines| - 1];
    assert latest in lines && latest.serial in Serials(tags, date);
    var t :| t in tags && Of(t, date, latest.serial);
    StableIs(tags, date, latest.serial);
    CandidatesAre(tags, date, latest.serial);
    if latest.stable == None {
      LastCandidate(latest, tags, date, t);
      assert latest.rcs[|latest.rcs| - 1] in multiset(latest.rcs);
    }
  }

  lemma ParsedCarry(tags: seq<Tag>, t: Tag)
    requires Parsed(tags) && t in tags
    ensures CarriedBy(t.serial, t.rc)
  {
    ParsePrints(t.raw);
  }

  lemma ChosenCarried(lines: seq<Line>, tags: seq<Tag>, date: string)
    requires Parsed(tags) && LinesOk(lines, tags, date)
    ensures Representable(Incremented(lines)) && Carried(Chosen(lines).0) && Carried(Chosen(lines).1)
    ensures lines != [] ==> Carried(Latest(lines))
  {
    if lines != [] {
      LatestHasTag(lines, tags, date);
      var latest := lines[|lines| - 1];
      var t :| t in tags && Of(t, date, latest.serial);
      ParsedCarry(tags, t);
      if latest.stable == None {
        var last := latest.rcs[|latest.rcs| - 1];
        ParsedCarry(tags, last);
        LastCandidate(latest, tags, date, last);
      }
      PlusExactly(Incremented(lines));
    }
  }

  /** The chosen numbers as a tag. */
  function ChosenTag(lines: seq<Line>, date: string): Tag {
    Tag("", date, Chosen(lines).0, Some(Chosen(lines).1))
  }

  /** When the incremented number rises, the choice comes after every tag of the date .. */
  lemma RisingIsLast(lines: seq<Line>, tags: seq<Tag>, date: string, t: Tag)
    requires LinesOk(lines, tags, date) && t in tags && t.date == date
    requires Plus(Incremented(lines)) > Incremented(lines)
    ensures Before(t, ChosenTag(lines, date))
  {
    LatestIsLast(lines, tags, date, t);
    LatestHasTag(lines, tags, date);
    var latest := lines[|lines| - 1];
    if t.serial == latest.serial && latest.stable == None {
      StableIs(tags, date, latest.serial);
      LastCandidate(latest, tags, date, t);
    }
  }

  /** .. and when it does not, the last tag of the date is not before it. */
  lemma StuckIsNotLast(lines: seq<Line>, tags: seq<Tag>, date: string) returns (t: Tag)
    requires LinesOk(lines, tags, date) && lines != []
    requires Plus(Incremented(lines)) == Incremented(lines)
    ensures t in tags && t.date == date && !Before(t, ChosenTag(lines, date))
  {
    LatestHasTag(lines, tags, date);
    var latest := lines[|lines| - 1];
    assert LineOk(latest, tags, date);
    if latest.stable.Some? {
      StableIs(tags, date, latest.serial);
      t :| t in tags && Of(t, date, latest.serial) && t.rc == None;
    } else {
      t := latest.rcs[|latest.rcs| - 1];
      LastCandidate(latest, tags, date, t);
    }
  }

  /** A candidate of the date that comes after every tag of it. */
  predicate IsNext(next: string, tags: seq<Tag>, date: string) {
    && Parse(next).Some? && Parse(next).value.date == date && Parse(next).value.rc.Some?
    && forall t <- tags :: t.date == date ==> Before(t, Parse(next).value)
  }

  lemma IsNextByNumbers(lines: seq<Line>, tags: seq<Tag>, date: string)
    requires IsDate(date) && CarriedBy(Chosen(lines).0, Some(Chosen(lines).1))
    ensures IsNext(NextRc(lines, date), tags, date) <==>
      && Numeric(Chosen(lines).0, Some(Chosen(lines).1))
      && forall t <- tags :: t.date == date ==> Before(t, ChosenTag(lines, date))
  {
    PrintParses(date, Chosen(lines).0, Some(Chosen(lines).1));
  }

  /**
    From tags in any order: the next candidate parses back and comes after every tag of its date if
    and only if the one number it adds one to can be added to, and the latest serial is below 10^21.
   */
  lemma NextRcExactly(lines: seq<Line>, tags: seq<Tag>, date: string)
    requires IsDate(date) && Parsed(tags) && LinesOk(lines, tags, date)
    ensures IsNext(NextRc(lines, date), tags, date) <==> Advances(Incremented(lines)) && Latest(lines) < EXPONENTIAL
  {
    ChosenCarried(lines, tags, date);
    IsNextByNumbers(lines, tags, date);
    PlusExactly(Incremented(lines));
    if Advances(Incremented(lines)) {
      forall t <- tags | t.date == date ensures Before(t, ChosenTag(lines, date)) {
        RisingIsLast(lines, tags, date, t);
      }
    } else {
      var t := StuckIsNotLast(lines, tags, date);
    }
  }

  /** And then it is none of the tags, of this date or any other. */
  lemma NextRcIsNew(lines: seq<Line>, tags: seq<Tag>, date: string)
    requires Parsed(tags) && IsNext(NextRc(lines, date), tags, date)
    ensures forall t <- tags :: t.raw != NextRc(lines, date)
  {
    forall t <- tags ensures t.raw != NextRc(lines, date) {
      assert Parse(t.raw) == Some(t);
    }
  }

  /** An instance: after candidate 2^53 the "next" tag is that candidate again. */
  lemma NextRcRunsOut(date: string) returns (t: Tag)
    requires IsDate(date)
    ensures t.date == date && Parsed([t]) && LinesOk([Line(t.serial, None, [t])], [t], date)
    ensures NextRc([Line(t.serial, None, [t])], date) == t.raw
  {
    t := Tag(Print(date, 1, Some(SAFE)), date, 1, Some(SAFE));
    PrintParses(date, 1, Some(SAFE));
    OneTag(t);
    NextAfter(t);
    PlusExactly(SAFE);
  }

  lemma NextAfter(t: Tag)
    requires t.rc.Some?
    ensures NextRc([Line(t.serial, None, [t])], t.date) == Print(t.date, t.serial, Some(Plus(t.rc.value)))
  {
  }

  lemma OneTag(t: Tag)
    requires t.rc.Some?
    ensures LinesOk([Line(t.serial, None, [t])], [t], t.date)
  {
    assert [t][..0] == [];
    assert Candidates([t], t.date, t.serial) == [t] && Stable([t], t.date, t.serial) == None;
    assert t in [t] && t.serial in Serials([t], t.date);
    var line := Line(t.serial, None, [t]);
    assert line in [line];
    assert (set l <- [line] :: l.serial) == {t.serial};
  }

  function PromotableRc(lines: seq<Line>): Option<string> {
    if lines == [] then None
    else
      var latest := lines[|lines| - 1];
      if latest.stable.Some? || latest.rcs == [] then None else Some(latest.rcs[|latest.rcs| - 1].raw)
  }

  predicate AtMostTag(t: Tag, u: Tag) {
    t.serial < u.serial || (t.serial == u.serial && t.rc.Some? && u.rc.Some? && t.rc.value <= u.rc.value)
  }

  /** The candidate offered for promotion is the last tag of its date. */
  lemma PromotableIsLatest(lines: seq<Line>, tags: seq<Tag>, date: string) returns (u: Tag)
    requires LinesOk(lines, tags, date) && PromotableRc(lines).Some?
    ensures u in tags && u.raw == PromotableRc(lines).value && u.date == date
    ensures forall t <- tags :: t.date == date ==> AtMostTag(t, u)
  {
    LatestHasTag(lines, tags, date);
    var latest := lines[|lines| - 1];
    u := latest.rcs[|latest.rcs| - 1];
    StableIs(tags, date, latest.serial);
    LastCandidate(latest, tags, date, u);
    forall t <- tags | t.date == date ensures AtMostTag(t, u) {
      LatestIsLast(lines, tags, date, t);
      if t.serial == latest.serial { LastCandidate(latest, tags, date, t); }
    }
  }

  /** None is offered exactly when there is no tag, or the last serial is already stable. */
  lemma NothingPromotable(lines: seq<Line>, tags: seq<Tag>, date: string)
    requires LinesOk(lines, tags, date)
    ensures PromotableRc(lines) == None <==>
      lines == [] || exists t <- tags :: Of(t, date, Latest(lines)) && t.rc == None
  {
    if lines != [] {
      LatestHasTag(lines, tags, date);
      StableIs(tags, date, Latest(lines));
      assert LineOk(lines[|lines| - 1], tags, date);
    }
  }

  // ---------------------------------------------------------------- grouping

  function RcOf(t: Tag): nat {
    if t.rc.Some? then t.rc.value else 0
  }

  function ByRc(): (Tag, Tag) -> bool {
    (a, b) => RcOf(a) <= RcOf(b)
  }

  function BySerial(): (Line, Line) -> bool {
    (a: Line, b: Line) => a.serial <= b.serial
  }

  lemma CandidatesSort(rcs: seq<Tag>)
    requires forall t <- rcs :: t.rc.Some?
    ensures multiset(Sort(rcs, ByRc())) == multiset(rcs) && SortedRcs(Sort(rcs, ByRc()))
  {
    var sorted := Sort(rcs, ByRc());
    SortKeeps(rcs, ByRc());
    SortSorts(rcs, ByRc());
    SameElements(sorted, rcs);
    forall i, j | 0 <= i < j < |sorted| ensures sorted[i].rc.value <= sorted[j].rc.value {
      assert sorted[i] in rcs && sorted[j] in rcs && ByRc()(sorted[i], sorted[j]);
    }
  }

  predicate SerialsDiffer(lines: seq<Line>) {
    forall i, j :: 0 <= i < j < |lines| ==> lines[i].serial != lines[j].serial
  }

  predicate Ascending(lines: seq<Line>) {
    forall i, j :: 0 <= i < j < |lines| ==> lines[i].serial < lines[j].serial
  }

  lemma {:induction false} InsertAscends(lines: seq<Line>, line: Line)
    requires Ascending(lines) && forall l <- lines :: l.serial != line.serial
    ensures Ascending(Insert(lines, line, BySerial()))
    ensures forall l: Line :: l in Insert(lines, line, BySerial()) <==> l in lines || l == line
    decreases |lines|
  {
    var n := |lines| - 1;
    if lines != [] {
      assert lines == lines[..n] + [lines[n]] && lines[n] in lines;
      InsertAscends(lines[..n], line);
      if line.serial < lines[n].serial {
        forall l <- Insert(lines[..n], line, BySerial()) ensures l.serial < lines[n].serial {
          assert l == line || l in lines[..n];
        }
      }
    }
  }

  lemma {:induction false} LinesSort(lines: seq<Line>)
    requires SerialsDiffer(lines)
    ensures Ascending(Sort(lines, BySerial())) && forall l: Line :: l in Sort(lines, BySerial()) <==> l in lines
    decreases |lines|
  {
    if lines != [] {
      var n := |lines| - 1;
      var sorted := Sort(lines[..n], BySerial());
      LinesSort(lines[..n]);
      forall l <- sorted ensures l.serial != lines[n].serial { assert l in lines[..n]; }
      InsertAscends(sorted, lines[n]);
      forall l: Line ensures l in Sort(lines, BySerial()) <==> l in lines {
        assert lines == lines[..n] + [lines[n]];
        assert l in sorted <==> l in lines[..n];
      }
    }
  }

  /** The map from serials to what has been gathered for them, candidates in the order of the tags. */
  method Gather(tags: seq<Tag>, date: string) returns (grouped: map<nat, Line>)
    ensures grouped.Keys == Serials(tags, date)
    ensures forall serial <- grouped :: grouped[serial] == Gathered(tags, date, serial)
  {
    grouped := map[];
    var i := 0;
    while i < |tags|
      invariant i <= |tags| && grouped.Keys == Serials(tags[..i], date)
      invariant forall serial <- grouped :: grouped[serial] == Gathered(tags[..i], date, serial)
    {
      var t := tags[i];
      assert tags[..i + 1][..i] == tags[..i] && tags[..i + 1] == tags[..i] + [t];
      if t.date == date {
        NothingBefore(tags[..i], date, t.serial);
        var line := if t.serial in grouped then grouped[t.serial] else Line(t.serial, None, []);
        grouped := grouped[t.serial := if t.rc == None then line.(stable := Some(t.raw)) else line.(rcs := line.rcs + [t])];
      }
      i := i + 1;
    }
    assert tags[..i] == tags;
  }

  lemma {:induction false} NothingBefore(tags: seq<Tag>, date: string, serial: nat)
    ensures serial !in Serials(tags, date) ==> Gathered(tags, date, serial) == Line(serial, None, [])
    decreases |tags|
  {
    if tags != [] {
      var t, before := tags[|tags| - 1], tags[..|tags| - 1];
      NothingBefore(before, date, serial);
      assert tags == before + [t];
      assert Serials(tags, date) == Serials(before, date) + if t.date == date then {t.serial} else {};
    }
  }

  /** One line of each of these serials, its candidates sorted, none of them without lineage. */
  predicate LinesFor(lines: seq<Line>, done: set<nat>, tags: seq<Tag>, date: string) {
    && SerialsDiffer(lines) && (set line <- lines :: line.serial) == done
    && (forall line <- lines :: LineOk(line, tags, date))
    && forall serial <- done :: Stable(tags, date, serial) == None || Candidates(tags, date, serial) != []
  }

  /** One line of the map: its candidates are sorted, and a stable tag without any is refused. */
  method SortLine(lines: seq<Line>, ghost done: set<nat>, line: Line, tags: seq<Tag>, date: string)
    returns (result: Result<seq<Line>, string>)
    requires LinesFor(lines, done, tags, date) && line.serial in Serials(tags, date) - done
    requires line == Gathered(tags, date, line.serial)
    ensures result.Err? ==> NoLineage(tags, date)
    ensures result.Ok? ==> LinesFor(result.value, done + {line.serial}, tags, date)
  {
    CandidatesAre(tags, date, line.serial);
    CandidatesSort(line.rcs);
    var sorted := line.(rcs := Sort(line.rcs, ByRc()));
    if sorted.stable.Some? && line.rcs == [] { return Err(line.stable.value); }
    LinesMore(lines, done, sorted, tags, date);
    return Ok(lines + [sorted]);
  }

  lemma LinesMore(lines: seq<Line>, done: set<nat>, line: Line, tags: seq<Tag>, date: string)
    requires LinesFor(lines, done, tags, date) && line.serial !in done && LineOk(line, tags, date)
    requires Stable(tags, date, line.serial) == None || Candidates(tags, date, line.serial) != []
    ensures LinesFor(lines + [line], done + {line.serial}, tags, date)
  {
    var more := lines + [line];
    forall i | 0 <= i < |lines| ensures more[i].serial in done { assert lines[i] in lines; }
    assert (set l <- more :: l.serial) == done + {line.serial} by {
      assert line in more && forall l <- lines :: l in more;
    }
  }

  /** Refuses exactly when some stable tag has no candidate; otherwise gives the sorted lines. */
  method ReleaseLines(tags: seq<Tag>, date: string) returns (result: Result<seq<Line>, string>)
    ensures result.Err? <==> NoLineage(tags, date)
    ensures result.Ok? ==> LinesOk(result.value, tags, date)
  {
    var grouped := Gather(tags, date);
    var lines: seq<Line> := [];
    var todo := grouped.Keys;
    ghost var done: set<nat> := {};
    while todo != {}
      invariant done + todo == grouped.Keys && done !! todo && LinesFor(lines, done, tags, date)
      decreases todo
    {
      var serial :| serial in todo;
      var longer := SortLine(lines, done, grouped[serial], tags, date);
      if longer.Err? { return longer; }
      lines, todo, done := longer.value, todo - {serial}, done + {serial};
    }
    assert done == Serials(tags, date);
    LinesForAll(lines, done, tags, date);
    return Ok(Sort(lines, BySerial()));
  }

  lemma LinesForAll(lines: seq<Line>, done: set<nat>, tags: seq<Tag>, date: string)
    requires LinesFor(lines, done, tags, date) && done == Serials(tags, date)
    ensures LinesOk(Sort(lines, BySerial()), tags, date) && !NoLineage(tags, date)
  {
    LinesSort(lines);
    var sorted := Sort(lines, BySerial());
    assert (set line <- sorted :: line.serial) == (set line <- lines :: line.serial);
  }
}
