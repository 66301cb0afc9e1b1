/** A worked example of `get_date` through the model:
    "Posted by Anonymous at 05 Mar 2024 13:45:00 UTC" is the fifth of March
    2024 at 13:45:00, stored as "2024-03-05T13:45:00+00:00".

    The text is handled as six pieces, and each step of the cleanup is shown
    to act on the pieces one at a time: no pattern can span a junction,
    because next to every junction there is a space or a digit, and the
    patterns removed hold neither (the first one, "posted by", holds a space,
    but every junction it meets has a digit or an 'a' beside it). */
module DateExample {
  import opened Results
  import opened PyStr
  import opened Dates

  const Raw: string := "Posted by Anonymous at 05 Mar 2024 13:45:00 UTC"

  lemma RawHalves()
    ensures Raw == "Posted by Anonymous at " + "05 Mar 2024 13:45:00 UTC"
  {
  }

  lemma FirstHalf()
    ensures "Posted by Anonymous at " == "Posted by " + "Anonymous at "
  {
  }

  lemma SecondHalf()
    ensures "05 Mar 2024 13:45:00 UTC" == "05" + " Mar " + "2024 13:45:00" + " UTC"
  {
  }

  lemma RawPieces()
    ensures Raw == "Posted by " + "Anonymous at " + "05" + " Mar " + "2024 13:45:00" + " UTC"
  {
    RawHalves();
    FirstHalf();
    SecondHalf();
  }

  // lower ------------------------------------------------------------------
  // Each literal is lowered in a lemma of its own, a word or two at a time:
  // lowering a longer literal in one step is costly for the solver.

  lemma LowerPair(x: string, y: string, lx: string, ly: string)
    requires Lower(x) == lx && Lower(y) == ly
    ensures Lower(x + y) == lx + ly
  {
    LowerConcat(x, y);
  }

  lemma LowerPosted() ensures Lower("Posted") == "posted" { }
  lemma LowerBy() ensures Lower(" by ") == " by " { }
  lemma LowerAnonHead() ensures Lower("Anon") == "anon" { }
  lemma LowerAnonTail() ensures Lower("ymous") == "ymous" { }
  lemma LowerAt() ensures Lower(" at ") == " at " { }

  lemma LowerPostedBy() ensures Lower("Posted by ") == "posted by " {
    LowerPosted();
    LowerBy();
    LowerPair("Posted", " by ", "posted", " by ");
    assert "Posted" + " by " == "Posted by ";
    assert "posted" + " by " == "posted by ";
  }

  lemma LowerAnonymous() ensures Lower("Anonymous") == "anonymous" {
    LowerAnonHead();
    LowerAnonTail();
    LowerPair("Anon", "ymous", "anon", "ymous");
    assert "Anon" + "ymous" == "Anonymous";
    assert "anon" + "ymous" == "anonymous";
  }

  lemma LowerAnonymousAt() ensures Lower("Anonymous at ") == "anonymous at " {
    LowerAnonymous();
    LowerAt();
    LowerPair("Anonymous", " at ", "anonymous", " at ");
    assert "Anonymous" + " at " == "Anonymous at ";
    assert "anonymous" + " at " == "anonymous at ";
  }

  /** The pieces of the second half, lower-cased. */
  lemma LowerDayMonthZone()
    ensures Lower("05") == "05" && Lower(" Mar ") == " mar " && Lower(" UTC") == " utc"
  {
  }

  lemma LowerTime()
    ensures Lower("2024 13:45:00") == "2024 13:45:00"
  {
    LowerIdentity("2024 13:45:00");
  }

  lemma LowerSix(a: string, b: string, c: string, d: string, e: string, f: string)
    ensures Lower(a + b + c + d + e + f)
         == Lower(a) + Lower(b) + Lower(c) + Lower(d) + Lower(e) + Lower(f)
  {
    LowerConcat(a + b + c + d + e, f);
    LowerConcat(a + b + c + d, e);
    LowerConcat(a + b + c, d);
    LowerConcat(a + b, c);
    LowerConcat(a, b);
  }

  lemma LowerRaw()
    ensures Lower(Raw) == "posted by " + "anonymous at " + "05" + " mar " + "2024 13:45:00" + " utc"
  {
    RawPieces();
    LowerSix("Posted by ", "Anonymous at ", "05", " Mar ", "2024 13:45:00", " UTC");
    LowerPostedBy(); LowerAnonymousAt(); LowerDayMonthZone(); LowerTime();
  }

  // replace ----------------------------------------------------------------

  lemma SeparatedAfter(x: string, e: string, f: string, p: string)
    requires e != [] && Separated(e, f, p)
    ensures Separated(x + e, f, p)
  {
    assert (x + e)[|x + e| - 1] == e[|e| - 1];
  }

  /** `replace` on six pieces with no occurrence across a junction. */
  lemma ReplaceSix(a: string, b: string, c: string, d: string, e: string, f: string,
                   p: string, r: string)
    requires |p| > 0 && a != [] && b != [] && c != [] && d != [] && e != []
    requires Separated(a, b, p) && Separated(b, c, p) && Separated(c, d, p)
    requires Separated(d, e, p) && Separated(e, f, p)
    ensures ReplaceAll(a + b + c + d + e + f, p, r)
         == ReplaceAll(a, p, r) + ReplaceAll(b, p, r) + ReplaceAll(c, p, r)
            + ReplaceAll(d, p, r) + ReplaceAll(e, p, r) + ReplaceAll(f, p, r)
  {
    SeparatedAfter(a + b + c + d, e, f, p);
    ReplaceConcat(a + b + c + d + e, f, p, r);
    SeparatedAfter(a + b + c, d, e, p);
    ReplaceConcat(a + b + c + d, e, p, r);
    SeparatedAfter(a + b, c, d, p);
    ReplaceConcat(a + b + c, d, p, r);
    SeparatedAfter(a, b, c, p);
    ReplaceConcat(a + b, c, p, r);
    ReplaceConcat(a, b, p, r);
  }

  lemma PostedByFront() ensures ReplaceAll("posted by ", "posted by", "") == " " {
    assert "posted by "[..9] == "posted by";
    assert "posted by "[9..] == " ";
  }

  lemma PostedByJunctions()
    ensures Separated("posted by ", "anonymous at ", "posted by")
    ensures Separated("anonymous at ", "05", "posted by")
    ensures Separated("05", " mar ", "posted by")
    ensures Separated(" mar ", "2024 13:45:00", "posted by")
    ensures Separated("2024 13:45:00", " utc", "posted by")
  {
  }

  lemma RemovePostedBy()
    ensures ReplaceAll("posted by " + "anonymous at " + "05" + " mar " + "2024 13:45:00" + " utc",
                       "posted by", "")
         == " " + "anonymous at " + "05" + " mar " + "2024 13:45:00" + " utc"
  {
    PostedByJunctions();
    ReplaceSix("posted by ", "anonymous at ", "05", " mar ", "2024 13:45:00", " utc", "posted by", "");
    PostedByFront();
    Untouched("anonymous at ", "posted by", "", 0);
    Untouched("05", "posted by", "", 0);
    Untouched(" mar ", "posted by", "", 0);
    Untouched("2024 13:45:00", "posted by", "", 0);
    Untouched(" utc", "posted by", "", 0);
  }

  lemma AtJunctions()
    ensures Separated(" ", "anonymous at ", "at")
    ensures Separated("anonymous at ", "05", "at")
    ensures Separated("05", " mar ", "at")
    ensures Separated(" mar ", "2024 13:45:00", "at")
    ensures Separated("2024 13:45:00", " utc", "at")
  {
  }

  lemma AtInSpaces() ensures ReplaceAll(" at ", "at", "") == "  " {
    assert " at "[1..3] == "at";
  }

  lemma AtInAnonymousAt() ensures ReplaceAll("anonymous at ", "at", "") == "anonymous  " {
    assert "anonymous" + " at " == "anonymous at ";
    assert Separated("anonymous", " at ", "at");
    ReplaceConcat("anonymous", " at ", "at", "");
    Untouched("anonymous", "at", "", 1);
    AtInSpaces();
    assert "anonymous" + "  " == "anonymous  ";
  }

  lemma RemoveAt()
    ensures ReplaceAll(" " + "anonymous at " + "05" + " mar " + "2024 13:45:00" + " utc", "at", "")
         == " " + "anonymous  " + "05" + " mar " + "2024 13:45:00" + " utc"
  {
    AtJunctions();
    ReplaceSix(" ", "anonymous at ", "05", " mar ", "2024 13:45:00", " utc", "at", "");
    Untouched(" ", "at", "", 0);
    Untouched("05", "at", "", 0);
    Untouched(" mar ", "at", "", 1);
    Untouched("2024 13:45:00", "at", "", 0);
    Untouched(" utc", "at", "", 0); AtInAnonymousAt();
  }

  lemma UtcJunctions()
    ensures Separated(" ", "anonymous  ", "utc")
    ensures Separated("anonymous  ", "05", "utc")
    ensures Separated("05", " mar ", "utc")
    ensures Separated(" mar ", "2024 13:45:00", "utc")
    ensures Separated("2024 13:45:00", " utc", "utc")
  {
  }

  lemma UtcInZone() ensures ReplaceAll(" utc", "utc", "") == " " {
    assert " utc"[1..4] == "utc";
  }

  lemma UtcNotInSpace() ensures ReplaceAll(" ", "utc", "") == " " {
    Untouched(" ", "utc", "", 0);
  }
  lemma UtcNotInName() ensures ReplaceAll("anonymous  ", "utc", "") == "anonymous  " {
    Untouched("anonymous  ", "utc", "", 1);
  }
  lemma UtcNotInDay() ensures ReplaceAll("05", "utc", "") == "05" {
    Untouched("05", "utc", "", 0);
  }
  lemma UtcNotInMonth() ensures ReplaceAll(" mar ", "utc", "") == " mar " {
    Untouched(" mar ", "utc", "", 0);
  }
  lemma UtcNotInTime() ensures ReplaceAll("2024 13:45:00", "utc", "") == "2024 13:45:00" {
    Untouched("2024 13:45:00", "utc", "", 0);
  }

  lemma RemoveUtc()
    ensures ReplaceAll(" " + "anonymous  " + "05" + " mar " + "2024 13:45:00" + " utc", "utc", "")
         == " " + "anonymous  " + "05" + " mar " + "2024 13:45:00" + " "
  {
    UtcJunctions();
    ReplaceSix(" ", "anonymous  ", "05", " mar ", "2024 13:45:00", " utc", "utc", "");
    UtcNotInSpace();
    UtcNotInName();
    UtcNotInDay();
    UtcNotInMonth();
    UtcNotInTime();
    UtcInZone();
  }

  lemma AnonymousJunctions()
    ensures Separated(" ", "anonymous  ", "anonymous")
    ensures Separated("anonymous  ", "05", "anonymous")
    ensures Separated("05", " mar ", "anonymous")
    ensures Separated(" mar ", "2024 13:45:00", "anonymous")
    ensures Separated("2024 13:45:00", " ", "anonymous")
  {
  }

  lemma AnonymousInName() ensures ReplaceAll("anonymous  ", "anonymous", "") == "  " {
    assert "anonymous  "[..9] == "anonymous";
    assert "anonymous  "[9..] == "  ";
    assert ReplaceAll("  ", "anonymous", "") == "  ";
  }

  lemma RemoveAnonymous()
    ensures ReplaceAll(" " + "anonymous  " + "05" + " mar " + "2024 13:45:00" + " ", "anonymous", "")
         == " " + "  " + "05" + " mar " + "2024 13:45:00" + " "
  {
    AnonymousJunctions();
    ReplaceSix(" ", "anonymous  ", "05", " mar ", "2024 13:45:00", " ", "anonymous", "");
    Untouched(" ", "anonymous", "", 0);
    Untouched("05", "anonymous", "", 0);
    Untouched(" mar ", "anonymous", "", 1);
    Untouched("2024 13:45:00", "anonymous", "", 0); AnonymousInName();
  }

  lemma CommaJunctions()
    ensures Separated(" ", "  ", ",")
    ensures Separated("  ", "05", ",")
    ensures Separated("05", " mar ", ",")
    ensures Separated(" mar ", "2024 13:45:00", ",")
    ensures Separated("2024 13:45:00", " ", ",")
  {
  }

  lemma RemoveComma()
    ensures ReplaceAll(" " + "  " + "05" + " mar " + "2024 13:45:00" + " ", ",", "")
         == " " + "  " + "05" + " mar " + "2024 13:45:00" + " "
  {
    CommaJunctions();
    ReplaceSix(" ", "  ", "05", " mar ", "2024 13:45:00", " ", ",", "");
    Untouched(" ", ",", "", 0);
    Untouched("  ", ",", "", 0);
    Untouched("05", ",", "", 0);
    Untouched(" mar ", ",", "", 0);
    Untouched("2024 13:45:00", ",", "", 0);
  }

  lemma NoiseRemoved()
    ensures RemoveNoise(Raw) == " " + "  " + "05" + " mar " + "2024 13:45:00" + " "
  {
    LowerRaw();
    RemovePostedBy();
    RemoveAt();
    RemoveUtc();
    RemoveAnonymous();
    RemoveComma();
  }

  // strip ------------------------------------------------------------------

  lemma LeadingPart(a: string, b: string, c: string, d: string, e: string, f: string)
    requires IsBlank(a) && IsBlank(b) && c != [] && !IsSpace(c[0])
    ensures StripLeading(a + b + c + d + e + f) == c + d + e + f
  {
    var ab := a + b;
    assert IsBlank(ab);
    assert a + b + c + d + e + f == ab + (c + d + e + f);
    StripLeadingSpaces(ab, c + d + e + f);
    StripLeadingStops(c, d + e + f);
  }

  lemma TrailingPart(c: string, d: string, e: string, f: string)
    requires IsBlank(f) && e != [] && !IsSpace(e[|e| - 1])
    ensures StripTrailing(c + d + e + f) == c + d + e
  {
    StripTrailingSpaces(c + d + e, f);
    StripTrailingStops(c + d, e);
  }

  lemma StripSix(a: string, b: string, c: string, d: string, e: string, f: string)
    requires IsBlank(a) && IsBlank(b) && IsBlank(f)
    requires c != [] && !IsSpace(c[0]) && e != [] && !IsSpace(e[|e| - 1])
    ensures Strip(a + b + c + d + e + f) == c + d + e
  {
    LeadingPart(a, b, c, d, e, f);
    TrailingPart(c, d, e, f);
  }

  /** The spaces around the pieces, and the pieces' own ends. */
  lemma PieceEdges()
    ensures IsBlank(" ") && IsBlank("  ")
    ensures "05" != [] && !IsSpace("05"[0])
    ensures "2024 13:45:00" != [] && !IsSpace("2024 13:45:00"[12])
  {
  }

  lemma Stripped()
    ensures Strip(RemoveNoise(Raw)) == "05" + " mar " + "2024 13:45:00"
  {
    NoiseRemoved();
    PieceEdges();
    StripSix(" ", "  ", "05", " mar ", "2024 13:45:00", " ");
  }

  // month ------------------------------------------------------------------

  lemma MonthIsMarch()
    ensures FirstMonthFrom("05" + " mar " + "2024 13:45:00", 0) == Some(2)
  {
    assert MonthNames[0] == "jan" && MonthNames[1] == "feb" && MonthNames[2] == "mar";
    MissingChar("05" + " mar " + "2024 13:45:00", "jan", 0);
    MissingChar("05" + " mar " + "2024 13:45:00", "feb", 0);
    assert OccursAt("05" + " mar " + "2024 13:45:00", "mar", 3);
  }

  /** March's token, and March replaced in itself. */
  lemma MarchToken()
    ensures MonthToken(2) == " mar " && MonthReplacement(2) == "-03-"
    ensures ReplaceAll(" mar ", " mar ", "-03-") == "-03-"
  {
    assert ReplaceAll([], " mar ", "-03-") == [];
  }

  lemma MarchJunctions()
    ensures Separated("05", " mar ", " mar ")
    ensures Separated("05" + " mar ", "2024 13:45:00", " mar ")
  {
  }

  lemma March()
    ensures "05" + "-03-" + "2024 13:45:00" == "05-03-2024 13:45:00"
  {
  }

  lemma MarchReplaced()
    ensures SubstituteMonth("05" + " mar " + "2024 13:45:00") == "05-03-2024 13:45:00"
  {
    MonthIsMarch();
    MarchToken();
    MarchJunctions();
    Untouched("05", " mar ", "-03-", 0);
    Untouched("2024 13:45:00", " mar ", "-03-", 1);
    ReplaceConcat("05" + " mar ", "2024 13:45:00", " mar ", "-03-");
    ReplaceConcat("05", " mar ", " mar ", "-03-");
    March();
  }

  lemma RawCleaned()
    ensures CleanDate(Raw) == "05-03-2024 13:45:00"
  {
    Stripped();
    MarchReplaced();
  }

  // reading and printing the instant -----------------------------------------

  const Expected: Instant := Instant(2024, 3, 5, 13, 45, 0)

  /** The fields of the instant, printed. */
  lemma ExampleDigits()
    ensures Digits(5, 2) == "05" && Digits(3, 2) == "03" && Digits(2024, 4) == "2024"
    ensures Digits(13, 2) == "13" && Digits(45, 2) == "45" && Digits(0, 2) == "00"
  {
    assert Digits(202, 3) == "202";
  }

  lemma DmyPieces()
    ensures "05" + "-" + "03" + "-" + "2024" + " " + "13" + ":" + "45" + ":" + "00" == "05-03-2024 13:45:00"
  {
  }

  lemma IsoPieces()
    ensures "2024" + "-" + "03" + "-" + "05" + "T" + "13" + ":" + "45" + ":" + "00" + "+00:00"
         == "2024-03-05T13:45:00+00:00"
  {
  }

  lemma ExpectedDmy() ensures FormatDmy(Expected) == "05-03-2024 13:45:00" {
    ExampleDigits();
    DmyPieces();
  }

  lemma ExpectedIso() ensures InstantText(Expected) == "2024-03-05T13:45:00+00:00" {
    ExampleDigits();
    IsoPieces();
  }

  lemma ExpectedValid() ensures ValidInstant(Expected) { }

  /** The worked example: the listing text names 13:45:00 on the fifth of
      March 2024, and that instant is stored and compared as
      "2024-03-05T13:45:00+00:00". */
  lemma WorkedExample()
    ensures CleanDate(Raw) == "05-03-2024 13:45:00"
    ensures GetDate(Raw) == Some(Expected)
    ensures InstantText(GetDate(Raw).value) == "2024-03-05T13:45:00+00:00"
  {
    RawCleaned();
    ExpectedValid();
    ExpectedDmy();
    ParseFormat(Expected);
    ExpectedIso();
  }
}
