/** Reading verdicts out of a model's reply (parseVerdict and parseBatchVerdicts in
    operator/internal/engine/llm/claude.go), and the reply format that reader expects. */
module Verdicts {
  import opened LlmTypes
  import opened Text

  const PASS_WORD := "PASS"
  const WARN_WORD := "WARN"
  const FAIL_WORD := "FAIL"

  /* ---- One verdict for the whole reply ---- */

  function SingleVerdict(text: string): Verdict {
    var upper := ToUpper(text);
    if Index(upper, "VERDICT: PASS") >= 0 then PASS
    else if Index(upper, "VERDICT: WARN") >= 0 then WARN
    else FAIL
  }

  /* ---- One verdict per check ---- */

  function Marker(checkID: string): string {
    ToUpper("CHECK " + checkID + ": VERDICT:")
  }

  /** The verdict named by the text that follows a marker. */
  function VerdictAfter(rest: string): Verdict {
    var after := TrimSpace(rest);
    if HasPrefix(after, PASS_WORD) then PASS
    else if HasPrefix(after, WARN_WORD) then WARN
    else FAIL
  }

  /** Without a marker: the first verdict after the first mention of the check's ID. */
  function MentionVerdict(upper: string, checkID: string): Verdict {
    var named := Index(upper, ToUpper(checkID));
    if named < 0 then FAIL
    else
      var remaining := upper[named..];
      var v := Index(remaining, "VERDICT:");
      if v < 0 then FAIL else VerdictAfter(remaining[v + 8..])
  }

  /** What follows the first marker of a check. */
  function Rest(upper: string, checkID: string): string
    requires Occurs(upper, Marker(checkID))
  {
    upper[Index(upper, Marker(checkID)) + |Marker(checkID)|..]
  }

  function BatchVerdict(upper: string, checkID: string): Verdict {
    if Index(upper, Marker(checkID)) < 0 then MentionVerdict(upper, checkID)
    else VerdictAfter(Rest(upper, checkID))
  }

  /* ---- The reply format ---- */

  datatype Report = Report(id: string, verdict: Verdict, reasoning: string)

  function Word(v: Verdict): string {
    match v
    case PASS => PASS_WORD
    case WARN => WARN_WORD
    case FAIL => FAIL_WORD
    case Other(text) => text
  }

  function Header(id: string, v: Verdict): string {
    "CHECK " + id + ": VERDICT: " + Word(v) + "\n"
  }

  /** What the batch prompt asks for: a verdict line for each check, followed by its reasoning. */
  function Print(rs: seq<Report>): string {
    if rs == [] then "" else Header(rs[0].id, rs[0].verdict) + rs[0].reasoning + Print(rs[1..])
  }

  predicate Plain(id: string) {
    ' ' !in id && ':' !in id && '\n' !in id
  }

  /** Complete lines of text in which CHECK followed by a space occurs in no letter case. */
  ghost predicate Quiet(text: string) {
    && (text == [] || text[|text| - 1] == '\n')
    && !Occurs(ToUpper(text), "CHECK ")
  }

  ghost predicate WellFormed(rs: seq<Report>) {
    forall r <- rs :: Plain(r.id) && Quiet(r.reasoning) && !r.verdict.Other?
  }

  /** IDs are told apart without regard to letter case. */
  predicate Twins(a: string, b: string) {
    ToUpper(a) == ToUpper(b)
  }

  /* ---- The round trip ---- */

  lemma MarkerShape(id: string)
    ensures Marker(id) == "CHECK " + ToUpper(id) + ": VERDICT:"
  {
  }

  lemma UpperHeader(id: string, v: Verdict)
    requires !v.Other?
    ensures ToUpper(Header(id, v)) == "CHECK " + ToUpper(id) + ": VERDICT: " + Word(v) + "\n"
  {
    assert forall i | 0 <= i < |Word(v)| :: UpperChar(Word(v)[i]) == Word(v)[i];
  }

  lemma UpperPlain(id: string)
    requires Plain(id)
    ensures Plain(ToUpper(id))
  {
  }

  /** A marker cannot begin inside quiet text, not even to end beyond it. */
  lemma NoMarkerInQuiet(quiet: string, rest: string, id: string, j: nat)
    requires Quiet(quiet) && j < |quiet|
    ensures !OccursAt(ToUpper(quiet) + rest, Marker(id), j)
  {
    var q, m := ToUpper(quiet), Marker(id);
    var s := q + rest;
    MarkerShape(id);
    assert s[|q| - 1] == '\n';
    if j + 6 > |q| {
      assert m[|q| - 1 - j] == "CHECK "[|q| - 1 - j] != '\n';
      NotThere(s, m, j, |q| - 1 - j);
    } else {
      assert !OccursAt(q, "CHECK ", j);
      var k :| 0 <= k < 6 && q[j..j + 6][k] != "CHECK "[k];
      assert s[j + k] == q[j..j + 6][k] && m[k] == "CHECK "[k];
      NotThere(s, m, j, k);
    }
  }

  lemma SpacesFollowColons(u: string, w: string, p: nat)
    requires Plain(u) && |w| == 4 && ' ' !in w
    requires 6 <= p < |"CHECK " + u + ": VERDICT: " + w + "\n"|
    ensures var h := "CHECK " + u + ": VERDICT: " + w + "\n";
            h[p] == ' ' ==> h[p - 1] == ':'
  {
    var h, back := "CHECK " + u + ": VERDICT: " + w + "\n", ": VERDICT: " + w + "\n";
    var k := p - 6 - |u|;
    if k < 0 {
      assert h[p] == u[p - 6];
    } else {
      assert h[p] == back[k];
      assert back[k] == ' ' ==> k == 1 || k == 10;
      assert k > 0 ==> h[p - 1] == back[k - 1];
    }
  }

  /** Within a verdict line a marker can begin only at the start. */
  lemma NoMarkerInHeader(id: string, v: Verdict, rest: string, other: string, j: nat)
    requires Plain(id) && !v.Other? && 0 < j < |Header(id, v)|
    ensures !OccursAt(ToUpper(Header(id, v)) + rest, Marker(other), j)
  {
    var h, m, u := ToUpper(Header(id, v)), Marker(other), ToUpper(id);
    var s := h + rest;
    MarkerShape(other);
    UpperHeader(id, v);
    UpperPlain(id);
    assert h[|h| - 1] == '\n';
    assert m[4] == 'K' && m[5] == ' ';
    if j + 5 < |h| {
      SpacesFollowColons(u, Word(v), j + 5);
      NotThere(s, m, j, if s[j + 5] == ' ' then 4 else 5);
    } else {
      assert m[|h| - 1 - j] == "CHECK "[|h| - 1 - j] != '\n';
      NotThere(s, m, j, |h| - 1 - j);
    }
  }

  lemma OwnMarkerFits(id: string, v: Verdict, rest: string, twin: string)
    requires !v.Other? && Twins(id, twin)
    ensures OccursAt(ToUpper(Header(id, v)) + rest, Marker(twin), 0)
  {
    MarkerShape(twin);
    UpperHeader(id, v);
    var s := ToUpper(Header(id, v)) + rest;
    assert s[..|Marker(twin)|] == Marker(twin);
  }

  /** No other check's marker fits a verdict line. */
  lemma OtherMarkerMisfits(id: string, v: Verdict, rest: string, other: string)
    requires Plain(id) && Plain(other) && !v.Other? && !Twins(id, other)
    ensures !OccursAt(ToUpper(Header(id, v)) + rest, Marker(other), 0)
  {
    var u, w, x := ToUpper(id), ToUpper(other), " VERDICT: " + Word(v) + "\n" + rest;
    assert ToUpper(Header(id, v)) + rest == "CHECK " + (u + [':'] + x) by {
      UpperHeader(id, v);
    }
    assert Marker(other) == "CHECK " + (w + [':'] + " VERDICT:") by {
      MarkerShape(other);
    }
    DelimitedMisfit("CHECK ", u, w, ':', x, " VERDICT:");
  }

  lemma PrefixesDiffer(t: string, p: string, q: string)
    requires |p| == |q| && HasPrefix(t, p)
    ensures HasPrefix(t, q) <==> p == q
  {
  }

  lemma OwnLineGivesVerdict(rest: string, v: Verdict)
    requires !v.Other? && HasPrefix(rest, " " + Word(v))
    ensures VerdictAfter(rest) == v
  {
    var t := rest[1..];
    assert rest[..5] == " " + Word(v);
    assert t[..4] == rest[..5][1..];
    assert rest == " " + t;
    TrimOneSpace(t, Word(v));
    TrimKeepsPrefix(rest, PASS_WORD);
    TrimKeepsPrefix(rest, WARN_WORD);
    PrefixesDiffer(t, Word(v), PASS_WORD);
    PrefixesDiffer(t, Word(v), WARN_WORD);
  }

  /** Text in front, in which a marker cannot begin, does not change what the marker finds. */
  lemma FrontIsIgnored(front: string, text: string, id: string)
    requires Occurs(text, Marker(id)) && !BeginsBefore(front + text, Marker(id), |front|)
    ensures Occurs(front + text, Marker(id))
    ensures Rest(front + text, id) == Rest(text, id)
  {
    var m := Marker(id);
    IndexShift(front, text, m);
    assert forall k: nat | k <= |text| :: (front + text)[|front| + k..] == text[k..];
  }

  lemma OwnLine(r: Report, tail: string, id: string)
    requires Plain(r.id) && !r.verdict.Other? && Twins(r.id, id)
    ensures var text := ToUpper(Header(r.id, r.verdict)) + tail;
            Occurs(text, Marker(id)) && HasPrefix(Rest(text, id), " " + Word(r.verdict))
  {
    var m, text := Marker(id), ToUpper(Header(r.id, r.verdict)) + tail;
    OwnMarkerFits(r.id, r.verdict, tail, id);
    IndexIs(text, m, 0);
    UpperHeader(r.id, r.verdict);
    MarkerShape(id);
    assert text[0 + |m|..] == " " + Word(r.verdict) + "\n" + tail;
  }

  lemma OtherLine(r: Report, tail: string, id: string)
    requires Plain(r.id) && Plain(id) && !r.verdict.Other? && !Twins(r.id, id)
    requires Occurs(tail, Marker(id))
    ensures var text := ToUpper(Header(r.id, r.verdict)) + tail;
            Occurs(text, Marker(id)) && Rest(text, id) == Rest(tail, id)
  {
    var h := ToUpper(Header(r.id, r.verdict));
    OtherMarkerMisfits(r.id, r.verdict, tail, id);
    forall j | 0 <= j < |h| ensures !OccursAt(h + tail, Marker(id), j) {
      if j > 0 {
        NoMarkerInHeader(r.id, r.verdict, tail, id, j);
      }
    }
    FrontIsIgnored(h, tail, id);
  }

  lemma {:induction false} OwnLineIsFound(preamble: string, rs: seq<Report>, i: nat)
    requires Quiet(preamble) && WellFormed(rs) && i < |rs|
    requires forall j | 0 <= j < i :: !Twins(rs[j].id, rs[i].id)
    ensures var upper := ToUpper(preamble + Print(rs));
            && Occurs(upper, Marker(rs[i].id))
            && HasPrefix(Rest(upper, rs[i].id), " " + Word(rs[i].verdict))
    decreases rs
  {
    var r, id := rs[0], rs[i].id;
    assert r in rs && rs[i] in rs;
    var q, tail := ToUpper(preamble), r.reasoning + Print(rs[1..]);
    var text := ToUpper(Header(r.id, r.verdict)) + ToUpper(tail);
    assert ToUpper(Print(rs)) == text by {
      assert Print(rs) == Header(r.id, r.verdict) + tail;
      ToUpperConcat(Header(r.id, r.verdict), tail);
    }
    ToUpperConcat(preamble, Print(rs));
    if i == 0 {
      OwnLine(r, ToUpper(tail), id);
    } else {
      OwnLineIsFound(r.reasoning, rs[1..], i - 1);
      OtherLine(r, ToUpper(tail), id);
    }
    forall j | 0 <= j < |q| ensures !OccursAt(q + text, Marker(id), j) {
      NoMarkerInQuiet(preamble, text, id, j);
    }
    FrontIsIgnored(q, text, id);
  }

  /** In a printed reply a check gets the verdict of the first line whose ID is its own up to
      letter case. */
  lemma FirstTwinDecides(preamble: string, rs: seq<Report>, i: nat)
    requires Quiet(preamble) && WellFormed(rs) && i < |rs|
    requires forall j | 0 <= j < i :: !Twins(rs[j].id, rs[i].id)
    ensures BatchVerdict(ToUpper(preamble + Print(rs)), rs[i].id) == rs[i].verdict
  {
    OwnLineIsFound(preamble, rs, i);
    assert rs[i] in rs;
    OwnLineGivesVerdict(Rest(ToUpper(preamble + Print(rs)), rs[i].id), rs[i].verdict);
  }

  lemma FirstTwin(rs: seq<Report>, i: nat) returns (k: nat)
    requires i < |rs|
    ensures k <= i && Twins(rs[k].id, rs[i].id)
    ensures forall j | 0 <= j < k :: !Twins(rs[j].id, rs[k].id)
  {
    k := 0;
    while !Twins(rs[k].id, rs[i].id)
      invariant k <= i && forall j | 0 <= j < k :: !Twins(rs[j].id, rs[i].id)
      decreases i - k
    {
      k := k + 1;
    }
  }

  /** Parsing what was printed, after any quiet preamble, recovers every verdict exactly when no
      two IDs that differ only in letter case carry different verdicts. */
  lemma RoundTrip(preamble: string, rs: seq<Report>)
    requires Quiet(preamble) && WellFormed(rs)
    ensures (forall i | 0 <= i < |rs| :: BatchVerdict(ToUpper(preamble + Print(rs)), rs[i].id) == rs[i].verdict)
            <==> (forall i, j | 0 <= i < j < |rs| && Twins(rs[i].id, rs[j].id) :: rs[i].verdict == rs[j].verdict)
  {
    var upper := ToUpper(preamble + Print(rs));
    forall i | 0 <= i < |rs|
      ensures exists k :: 0 <= k <= i && Twins(rs[k].id, rs[i].id) && BatchVerdict(upper, rs[i].id) == rs[k].verdict
    {
      var k := FirstTwin(rs, i);
      FirstTwinDecides(preamble, rs, k);
      SameForTwins(upper, rs[k].id, rs[i].id);
    }
    forall i, j | 0 <= i < j < |rs| && Twins(rs[i].id, rs[j].id)
      ensures BatchVerdict(upper, rs[i].id) == BatchVerdict(upper, rs[j].id)
    {
      SameForTwins(upper, rs[i].id, rs[j].id);
    }
  }

  lemma SameForTwins(upper: string, a: string, b: string)
    requires Twins(a, b)
    ensures BatchVerdict(upper, a) == BatchVerdict(upper, b)
  {
    assert Marker(a) == Marker(b) by {
      MarkerShape(a);
      MarkerShape(b);
    }
  }

  /** A check whose ID the reply mentions nowhere, in no letter case, fails. */
  lemma UnmentionedCheckFails(upper: string, id: string)
    requires !Occurs(upper, ToUpper(id))
    ensures BatchVerdict(upper, id) == FAIL
  {
    MarkerShape(id);
    if Occurs(upper, Marker(id)) {
      OccursInside(upper, "CHECK ", ToUpper(id), ": VERDICT:");
    }
  }

  /** A reply with a single verdict line, as the system prompt demands, is read as that line says,
      wherever it stands and in whatever letter case. */
  lemma SingleLineIsRead(text: string, at: nat, v: Verdict)
    requires !v.Other? && OccursAt(ToUpper(text), "VERDICT: " + Word(v), at)
    requires forall j | OccursAt(ToUpper(text), "VERDICT: ", j) :: j == at
    ensures SingleVerdict(text) == v
  {
    var upper := ToUpper(text);
    forall w: Verdict, j | !w.Other? && OccursAt(upper, "VERDICT: " + Word(w), j)
      ensures j == at && Word(w) == Word(v)
    {
      assert upper[j..j + 13][..9] == "VERDICT: ";
      assert upper[j..j + 9] == "VERDICT: ";
      assert OccursAt(upper, "VERDICT: ", j);
      assert upper[at..at + 13][9..] == Word(v) && upper[j..j + 13][9..] == Word(w);
    }
    assert "VERDICT: " + Word(PASS) == "VERDICT: PASS" && "VERDICT: " + Word(WARN) == "VERDICT: WARN";
    if Occurs(upper, "VERDICT: PASS") {
      var j :| OccursAt(upper, "VERDICT: PASS", j);
      assert OccursAt(upper, "VERDICT: " + Word(PASS), j);
      assert Word(v) == PASS_WORD;
    } else if Occurs(upper, "VERDICT: WARN") {
      var j :| OccursAt(upper, "VERDICT: WARN", j);
      assert OccursAt(upper, "VERDICT: " + Word(WARN), j);
      assert Word(v) == WARN_WORD;
    }
  }

  /* ---- Any reply ---- */

  /** The verdict a text begins with; one that begins with neither word is a failure. */
  function Begins(text: string): Verdict {
    if HasPrefix(text, "PASS") then PASS else if HasPrefix(text, "WARN") then WARN else FAIL
  }

  lemma AfterSpaces(spaces: string, rest: string)
    requires (forall c <- spaces :: IsSpace(c)) && (rest == [] || !IsSpace(rest[0]))
    ensures VerdictAfter(spaces + rest) == Begins(rest)
  {
    TrimLeftCuts(spaces, rest);
    TrimKeepsPrefix(spaces + rest, "PASS");
    TrimKeepsPrefix(spaces + rest, "WARN");
  }

  /** A reply read for one check: PASS wherever it says so, else WARN wherever it says so, else FAIL. */
  lemma SingleVerdictIs(text: string)
    ensures SingleVerdict(text) == PASS <==> Occurs(ToUpper(text), "VERDICT: PASS")
    ensures SingleVerdict(text) == WARN <==> !Occurs(ToUpper(text), "VERDICT: PASS") && Occurs(ToUpper(text), "VERDICT: WARN")
    ensures SingleVerdict(text) == FAIL <==> !Occurs(ToUpper(text), "VERDICT: PASS") && !Occurs(ToUpper(text), "VERDICT: WARN")
  {
  }

  /** A reply that differs only in letter case is read the same, for IDs in whatever case. */
  lemma CaseIsIgnored(a: string, b: string, x: string, y: string)
    requires SameLetters(a, b) && SameLetters(x, y)
    ensures SingleVerdict(a) == SingleVerdict(b)
    ensures BatchVerdict(ToUpper(a), x) == BatchVerdict(ToUpper(b), y)
  {
    UpperForgetsCase(a, b);
    UpperForgetsCase(x, y);
    SameForTwins(ToUpper(a), x, y);
  }

  /** A check with a marker anywhere in the reply gets the verdict after its first marker. */
  lemma MarkerReads(upper: string, id: string, i: nat, spaces: string, rest: string)
    requires FirstAt(upper, "CHECK " + ToUpper(id) + ": VERDICT:", 0, i)
    requires upper[i + |"CHECK " + ToUpper(id) + ": VERDICT:"|..] == spaces + rest
    requires (forall c <- spaces :: IsSpace(c)) && (rest == [] || !IsSpace(rest[0]))
    ensures BatchVerdict(upper, id) == Begins(rest)
  {
    MarkerShape(id);
    IndexIs(upper, Marker(id), i);
    AfterSpaces(spaces, rest);
  }

  /** A check without a marker gets the first verdict that follows the first mention of its ID. */
  lemma MentionReads(upper: string, id: string, i: nat, j: nat, spaces: string, rest: string)
    requires !Occurs(upper, "CHECK " + ToUpper(id) + ": VERDICT:")
    requires FirstAt(upper, ToUpper(id), 0, i) && FirstAt(upper, "VERDICT:", i, j)
    requires upper[j + 8..] == spaces + rest
    requires (forall c <- spaces :: IsSpace(c)) && (rest == [] || !IsSpace(rest[0]))
    ensures BatchVerdict(upper, id) == Begins(rest)
  {
    MarkerShape(id);
    IndexIs(upper, ToUpper(id), i);
    var remaining := upper[i..];
    assert upper == upper[..i] + remaining;
    forall k | 0 <= k <= j - i ensures OccursAt(remaining, "VERDICT:", k) <==> OccursAt(upper, "VERDICT:", i + k) {
      OccursAfter(upper[..i], remaining, "VERDICT:", i + k);
    }
    IndexIs(remaining, "VERDICT:", j - i);
    assert remaining[j - i + 8..] == upper[j + 8..];
    AfterSpaces(spaces, rest);
  }

  /** And if none follows, it fails. */
  lemma MentionWithoutVerdictFails(upper: string, id: string, i: nat)
    requires !Occurs(upper, "CHECK " + ToUpper(id) + ": VERDICT:")
    requires FirstAt(upper, ToUpper(id), 0, i) && forall j | i <= j :: !OccursAt(upper, "VERDICT:", j)
    ensures BatchVerdict(upper, id) == FAIL
  {
    MarkerShape(id);
    IndexIs(upper, ToUpper(id), i);
    var remaining := upper[i..];
    assert upper == upper[..i] + remaining;
    forall k ensures !OccursAt(remaining, "VERDICT:", k) {
      if k >= 0 {
        OccursAfter(upper[..i], remaining, "VERDICT:", i + k);
      }
    }
  }

  /* ---- Replies that leave out the word CHECK ---- */

  function PlainLine(r: Report): string {
    r.id + ": VERDICT: " + Word(r.verdict) + "\n"
  }

  function PlainLines(rs: seq<Report>): string {
    if rs == [] then "" else PlainLines(rs[..|rs| - 1]) + PlainLine(rs[|rs| - 1])
  }

  /** Spaces stand only behind colons, so no marker fits. */
  predicate SpacesBehindColons(s: string) {
    forall p | 0 <= p < |s| && s[p] == ' ' :: p > 0 && s[p - 1] == ':'
  }

  lemma NoMarkerFits(s: string, id: string)
    requires SpacesBehindColons(s)
    ensures !Occurs(s, "CHECK " + ToUpper(id) + ": VERDICT:")
  {
    var m := "CHECK " + ToUpper(id) + ": VERDICT:";
    forall j ensures !OccursAt(s, m, j) {
      if j >= 0 {
        assert m[4] == 'K' && m[5] == ' ';
        if j + 5 < |s| {
          NotThere(s, m, j, if s[j + 5] == ' ' then 4 else 5);
        }
      }
    }
  }

  lemma UpperPlainLine(r: Report)
    requires Plain(r.id) && !r.verdict.Other?
    ensures ToUpper(PlainLine(r)) == ToUpper(r.id) + ": VERDICT: " + Word(r.verdict) + "\n"
    ensures SpacesBehindColons(ToUpper(PlainLine(r)))
  {
    var u, w := ToUpper(r.id), Word(r.verdict);
    UpperPlain(r.id);
    assert forall i | 0 <= i < |w| :: UpperChar(w[i]) == w[i];
    var l, back := u + ": VERDICT: " + w + "\n", ": VERDICT: " + w + "\n";
    assert forall q | 0 <= q < |u| :: l[q] == u[q] != ' ';
    forall p | 0 <= p < |l| && l[p] == ' ' ensures p > 0 && l[p - 1] == ':' {
      assert p >= |u|;
      var k := p - |u|;
      assert l[p] == back[k];
      assert back[k] == ' ' ==> k == 1 || k == 10;
      assert l[p - 1] == back[k - 1];
    }
  }

  predicate EndsInVerdict(u: string) {
    |u| >= 7 && u[|u| - 7..] == "VERDICT"
  }

  /** In a plain line the verdict's own mark comes first, unless the ID itself ends in VERDICT. */
  lemma FirstMarkOfLine(u: string, tail: string)
    requires ':' !in u
    ensures FirstAt(u + ": VERDICT: " + tail, "VERDICT:", 0, if EndsInVerdict(u) then |u| - 7 else |u| + 2)
  {
    var t, j := u + ": VERDICT: " + tail, if EndsInVerdict(u) then |u| - 7 else |u| + 2;
    var mark := ": VERDICT: ";
    assert forall k | 0 <= k < 11 :: t[|u| + k] == mark[k];
    if EndsInVerdict(u) {
      assert forall k | 0 <= k < 7 :: t[j + k] == u[j..][k] == "VERDICT"[k] == "VERDICT:"[k];
      assert t[j + 7] == mark[0] == "VERDICT:"[7];
    } else {
      assert forall k | 0 <= k < 8 :: t[j + k] == mark[k + 2] == "VERDICT:"[k];
    }
    assert t[j..j + 8] == "VERDICT:";
    forall k | 0 <= k < j ensures !OccursAt(t, "VERDICT:", k) {
      if k + 7 < |u| {
        assert t[k + 7] == u[k + 7];
        NotThere(t, "VERDICT:", k, 7);
      } else if k + 7 == |u| {
        var end := u[k..];
        assert |end| == 7 && end != "VERDICT";
        var i :| 0 <= i < 7 && end[i] != "VERDICT"[i];
        assert t[k + i] == u[k + i] == end[i] && "VERDICT:"[i] == "VERDICT"[i];
        NotThere(t, "VERDICT:", k, i);
      } else {
        assert t[k + 7] == mark[k + 7 - |u|] != ':';
        NotThere(t, "VERDICT:", k, 7);
      }
    }
  }

  /** No line but its own mentions the ID. */
  ghost predicate OwnMention(rs: seq<Report>, i: nat)
    requires i < |rs|
  {
    forall k | 0 <= k < |rs| && k != i :: !Occurs(ToUpper(PlainLine(rs[k])), ToUpper(rs[i].id))
  }

  ghost predicate PlainReports(rs: seq<Report>) {
    forall r <- rs :: Plain(r.id) && r.id != "" && !r.verdict.Other?
  }

  /** A word without line breaks that begins in a complete line ends in it. */
  lemma WordStaysInLine(line: string, rest: string, word: string, j: nat)
    requires line != [] && line[|line| - 1] == '\n' && '\n' !in word && word != []
    requires j < |line| && !OccursAt(line, word, j)
    ensures !OccursAt(line + rest, word, j)
  {
    var s := line + rest;
    if j + |word| <= |line| {
      assert s[j..j + |word|] == line[j..j + |word|];
    } else {
      assert s[|line| - 1] == '\n' && word[|line| - 1 - j] in word;
      NotThere(s, word, j, |line| - 1 - j);
    }
  }

  lemma {:induction false} LinesAreComplete(rs: seq<Report>)
    requires PlainReports(rs)
    ensures var s := ToUpper(PlainLines(rs));
            SpacesBehindColons(s) && (s == [] || s[|s| - 1] == '\n')
  {
    if rs != [] {
      var front, last := rs[..|rs| - 1], rs[|rs| - 1];
      assert last in rs;
      LinesAreComplete(front);
      UpperPlainLine(last);
      ToUpperConcat(PlainLines(front), PlainLine(last));
      SpacesConcat(ToUpper(PlainLines(front)), ToUpper(PlainLine(last)));
    }
  }

  lemma SpacesConcat(a: string, b: string)
    requires SpacesBehindColons(a) && SpacesBehindColons(b)
    ensures SpacesBehindColons(a + b)
  {
    forall p | 0 <= p < |a + b| && (a + b)[p] == ' ' ensures p > 0 && (a + b)[p - 1] == ':' {
      assert p >= |a| ==> b[p - |a|] == ' ';
    }
  }

  ghost predicate NowhereIn(s: string, n: nat, word: string) {
    forall j | 0 <= j < n :: !OccursAt(s, word, j)
  }

  lemma NowhereInTwo(before: string, line: string, rest: string, word: string)
    requires line != [] && line[|line| - 1] == '\n' && '\n' !in word && word != []
    requires NowhereIn(before + (line + rest), |before|, word) && !Occurs(line, word)
    ensures NowhereIn(before + line + rest, |before + line|, word)
  {
    var s := before + (line + rest);
    assert before + line + rest == s;
    forall j | 0 <= j < |before + line| ensures !OccursAt(s, word, j) {
      if j >= |before| {
        WordStaysInLine(line, rest, word, j - |before|);
        OccursAfter(before, line + rest, word, j);
      }
    }
  }

  /** A word that occurs in none of the lines does not begin in them, whatever follows. */
  lemma {:induction false} NotInLines(rs: seq<Report>, word: string, rest: string)
    requires PlainReports(rs) && '\n' !in word && word != []
    requires forall k | 0 <= k < |rs| :: !Occurs(ToUpper(PlainLine(rs[k])), word)
    ensures NowhereIn(ToUpper(PlainLines(rs)) + rest, |ToUpper(PlainLines(rs))|, word)
  {
    if rs != [] {
      var front, last := rs[..|rs| - 1], rs[|rs| - 1];
      assert last in rs;
      var before, line := ToUpper(PlainLines(front)), ToUpper(PlainLine(last));
      NotInLines(front, word, line + rest);
      UpperPlainLine(last);
      ToUpperConcat(PlainLines(front), PlainLine(last));
      NowhereInTwo(before, line, rest, word);
    }
  }

  lemma {:induction false} LinesInThree(rs: seq<Report>, i: nat) returns (after: string)
    requires i < |rs|
    ensures PlainLines(rs) == PlainLines(rs[..i]) + PlainLine(rs[i]) + after
  {
    var front := rs[..|rs| - 1];
    if i == |front| {
      after := "";
    } else {
      after := LinesInThree(front, i);
      assert front[..i] == rs[..i];
      after := after + PlainLine(rs[|rs| - 1]);
    }
  }

  lemma OwnMentionBefore(rs: seq<Report>, i: nat)
    requires PlainReports(rs) && i < |rs| && OwnMention(rs, i)
    ensures PlainReports(rs[..i])
    ensures forall k | 0 <= k < i :: !Occurs(ToUpper(PlainLine(rs[..i][k])), ToUpper(rs[i].id))
  {
    assert forall k | 0 <= k < i :: rs[..i][k] == rs[k];
  }

  lemma UpperPlainLines(rs: seq<Report>, i: nat) returns (back: string)
    requires i < |rs|
    ensures ToUpper(PlainLines(rs)) == ToUpper(PlainLines(rs[..i])) + (ToUpper(PlainLine(rs[i])) + back)
  {
    var after := LinesInThree(rs, i);
    back := ToUpper(after);
    var front, line := PlainLines(rs[..i]), PlainLine(rs[i]);
    assert front + line + after == front + (line + after);
    ToUpperConcat(front, line + after);
    ToUpperConcat(line, after);
  }

  lemma LineAndMore(u: string, w: string, back: string)
    ensures u + ": VERDICT: " + w + "\n" + back == u + ": VERDICT: " + (w + "\n" + back)
  {
  }

  /** What is behind the first mark of a line. */
  lemma BehindMark(front: string, u: string, tail: string)
    ensures var text, j := u + ": VERDICT: " + tail, if EndsInVerdict(u) then |u| - 7 else |u| + 2;
            && 0 <= j && j + 8 <= |text|
            && (front + text)[|front| + j + 8..] == " " + if EndsInVerdict(u) then "VERDICT: " + tail else tail
  {
    var text := u + ": VERDICT: " + tail;
    if EndsInVerdict(u) {
      assert text == u + ":" + (" " + ("VERDICT: " + tail));
      assert (front + text)[|front| + |u| + 1..] == " " + ("VERDICT: " + tail);
    } else {
      assert text == u + ": VERDICT:" + (" " + tail);
      assert (front + text)[|front| + |u| + 10..] == " " + tail;
    }
  }

  /** The verdict that follows the first mention of an ID standing at the head of a line. */
  lemma MentionOfLine(front: string, u: string, v: Verdict, back: string, id: string)
    requires u == ToUpper(id) && ':' !in u && !v.Other?
    requires var upper := front + (u + ": VERDICT: " + (Word(v) + "\n" + back));
             SpacesBehindColons(upper) && NowhereIn(upper, |front|, u)
    ensures BatchVerdict(front + (u + ": VERDICT: " + (Word(v) + "\n" + back)), id)
         == if EndsInVerdict(u) then FAIL else v
  {
    var tail := Word(v) + "\n" + back;
    var rest := if EndsInVerdict(u) then "VERDICT: " + tail else tail;
    assert Begins(rest) == (if EndsInVerdict(u) then FAIL else v) && !IsSpace(rest[0]) by {
      if EndsInVerdict(u) {
        assert rest[..4] == "VERD";
      } else {
        assert tail == Word(v) + ("\n" + back);
        WordBegins(v, "\n" + back);
      }
    }
    MarkOfMention(front, u, tail, rest, id);
  }

  lemma MarkOfMention(front: string, u: string, tail: string, rest: string, id: string)
    requires u == ToUpper(id) && ':' !in u && rest == if EndsInVerdict(u) then "VERDICT: " + tail else tail
    requires rest != [] && !IsSpace(rest[0])
    requires var upper := front + (u + ": VERDICT: " + tail);
             SpacesBehindColons(upper) && NowhereIn(upper, |front|, u)
    ensures BatchVerdict(front + (u + ": VERDICT: " + tail), id) == Begins(rest)
  {
    var text, j := u + ": VERDICT: " + tail, if EndsInVerdict(u) then |u| - 7 else |u| + 2;
    var upper := front + text;
    assert !Occurs(upper, "CHECK " + u + ": VERDICT:") by {
      NoMarkerFits(upper, id);
    }
    assert FirstAt(upper, u, 0, |front|) by {
      assert text[..|u|] == u;
      OccursAfter(front, text, u, |front|);
    }
    assert FirstAt(upper, "VERDICT:", |front|, |front| + j) by {
      FirstMarkOfLine(u, tail);
      FirstAtShift(front, text, "VERDICT:", j);
    }
    BehindMark(front, u, tail);
    MentionReads(upper, id, |front|, |front| + j, " ", rest);
  }

  /** A reply of plain verdict lines, whose IDs are mentioned in no other line: each check gets the
      verdict of its own line, except that a check whose ID ends in VERDICT fails. */
  lemma PlainLinesAreRead(rs: seq<Report>, i: nat)
    requires PlainReports(rs) && i < |rs| && OwnMention(rs, i)
    ensures BatchVerdict(ToUpper(PlainLines(rs)), rs[i].id)
         == if EndsInVerdict(ToUpper(rs[i].id)) then FAIL else rs[i].verdict
  {
    var r, front := rs[i], ToUpper(PlainLines(rs[..i]));
    assert r in rs;
    var u := ToUpper(r.id);
    assert ':' !in u && '\n' !in u && u != [] by {
      UpperPlain(r.id);
    }
    var back := UpperPlainLines(rs, i);
    var rest := u + ": VERDICT: " + (Word(r.verdict) + "\n" + back);
    assert ToUpper(PlainLine(r)) + back == rest by {
      UpperPlainLine(r);
      LineAndMore(u, Word(r.verdict), back);
    }
    assert NowhereIn(front + rest, |front|, u) by {
      OwnMentionBefore(rs, i);
      NotInLines(rs[..i], u, rest);
    }
    assert SpacesBehindColons(front + rest) by {
      LinesAreComplete(rs);
    }
    MentionOfLine(front, u, r.verdict, back, r.id);
  }

  lemma WordBegins(v: Verdict, rest: string)
    requires !v.Other?
    ensures Begins(Word(v) + rest) == v
  {
    assert (Word(v) + rest)[..4] == Word(v);
  }
}
