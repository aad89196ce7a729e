/** solution_verifier.py: the review document a model returns, normalized and then held to a strict
    schema. */
module ReviewDocument {
  import opened Results

  datatype Json =
    | JNull
    | JBool(flag: bool)
    | JNumber(number: real)
    | JText(text: string)
    | JList(items: seq<Json>)
    | JObject(fields: map<string, Json>)

  type Document = map<string, Json>

  /** The outcome of a check. `TypeFault` is the `TypeError` Python raises for `[] in {...}`, which the
      retry loop does not catch. */
  datatype Checked<+T> = Valid(value: T) | Invalid | TypeFault

  datatype Severity = Error | Warning

  datatype Finding = Finding(code: string, severity: Severity, path: string, message: string)

  datatype Review = Review(accepted: bool, summary: string, findings: seq<Finding>, required: seq<string>)

  // ----- Text -----

  predicate IsSpace(c: char) {
    9 <= c as int <= 13 || 28 <= c as int <= 32 || c as int == 0x85 || c as int == 0xA0
  }

  function StripLeft(s: string): string { if s != [] && IsSpace(s[0]) then StripLeft(s[1..]) else s }

  function StripRight(s: string): string {
    if s != [] && IsSpace(s[|s| - 1]) then StripRight(s[..|s| - 1]) else s
  }

  function Strip(s: string): string { StripRight(StripLeft(s)) }

  /** `_bounded_text`. */
  function BoundedText(value: Json, maximum: nat): Checked<string> {
    if !value.JText? || Strip(value.text) == "" || |value.text| > maximum then Invalid else Valid(Strip(value.text))
  }

  predicate CodeChar(c: char) { 'A' <= c <= 'Z' || '0' <= c <= '9' || c == '_' }

  /** Upper-case identifier text with something besides underscores. */
  predicate StableCode(s: string) {
    (forall i | 0 <= i < |s| :: CodeChar(s[i])) && exists i | 0 <= i < |s| :: s[i] != '_'
  }

  function Split(s: string, separator: char): (r: seq<string>)
    ensures r != []
  {
    if s == [] then [""]
    else
      var rest := Split(s[1..], separator);
      if s[0] == separator then [""] + rest else [[s[0]] + rest[0]] + rest[1..]
  }

  predicate RelativePath(s: string) {
    !(s != [] && s[0] == '/') && ".." !in Split(s, '/') && '\\' !in s
  }

  // ----- Findings -----

  const FINDING_KEYS := {"code", "severity", "path", "message"}
  const REVIEW_KEYS := {"accepted", "summary", "findings", "required_changes"}
  const MARKER := "required_changes_empty"
  const REQUIRED := "required_changes"

  /** `_finding`. */
  function CheckFinding(value: Json): Checked<Finding> {
    if !value.JObject? || value.fields.Keys != FINDING_KEYS then Invalid
    else
      var code := BoundedText(value.fields["code"], 80);
      if !code.Valid? || !StableCode(code.value) then Invalid
      else
        var severity := value.fields["severity"];
        if severity.JList? || severity.JObject? then TypeFault
        else if severity != JText("error") && severity != JText("warning") then Invalid
        else
          var path := BoundedText(value.fields["path"], 500);
          if !path.Valid? || !RelativePath(path.value) then Invalid
          else
            var message := BoundedText(value.fields["message"], 1000);
            if !message.Valid? then Invalid
            else
              var level := if severity == JText("error") then Error else Warning;
              Valid(Finding(code.value, level, path.value, message.value))
  }

  /** A tuple of a generator: the first failure wins. */
  function CheckAll<T>(items: seq<Json>, check: Json -> Checked<T>): (r: Checked<seq<T>>)
    ensures r.Valid? ==> |r.value| == |items| && forall i | 0 <= i < |items| :: check(items[i]) == Valid(r.value[i])
  {
    if items == [] then Valid([])
    else
      var head := check(items[0]);
      match head
      case Invalid => Invalid
      case TypeFault => TypeFault
      case Valid(x) =>
        var rest := CheckAll(items[1..], check);
        match rest
        case Valid(xs) => Valid([x] + xs)
        case Invalid => Invalid
        case TypeFault => TypeFault
  }

  // ----- Normalization -----

  /** The empty list an accepted review may omit. */
  function WithRequired(d: Document): Document {
    if "accepted" in d && d["accepted"] == JBool(true) && REQUIRED !in d && "findings" in d && d["findings"].JList?
    then d[REQUIRED := JList([])]
    else d
  }

  predicate MarkerConsistent(d: Document)
    requires MARKER in d
  {
    && REQUIRED in d && d[REQUIRED].JList?
    && (d[MARKER] == JBool(d[REQUIRED].items == []) || (d[MARKER] == JList([]) && d[REQUIRED].items == []))
  }

  /** `_normalize_document`. */
  function Normalize(document: Document): Document {
    var d := WithRequired(document);
    if MARKER in d && MarkerConsistent(d) then d - {MARKER} else d
  }

  // ----- Validation -----

  function TextOf(maximum: nat): Json -> Checked<string> { (value: Json) => BoundedText(value, maximum) }

  function FindingOf(): Json -> Checked<Finding> { (value: Json) => CheckFinding(value) }

  predicate HasError(findings: seq<Finding>) { exists i | 0 <= i < |findings| :: findings[i].severity == Error }

  /** The four keys and what each must hold before any item is looked at. */
  predicate Shaped(d: Document) {
    && d.Keys == REVIEW_KEYS
    && d["accepted"].JBool?
    && d["summary"].JText? && Strip(d["summary"].text) != "" && |d["summary"].text| <= 1000
    && d["findings"].JList? && |d["findings"].items| <= 10
    && d[REQUIRED].JList? && |d[REQUIRED].items| <= 10
  }

  /** `_validate_document`. */
  function Validate(document: Document): Checked<Review> {
    var d := Normalize(document);
    if !Shaped(d) then Invalid
    else
      var findings := CheckAll(d["findings"].items, FindingOf());
      match findings
      case Invalid => Invalid
      case TypeFault => TypeFault
      case Valid(fs) =>
        var required := CheckAll(d[REQUIRED].items, TextOf(1000));
        match required
        case Invalid => Invalid
        case TypeFault => TypeFault
        case Valid(rs) =>
          var accepted := d["accepted"].flag;
          if accepted && (HasError(fs) || rs != []) then Invalid
          else if !accepted && (!HasError(fs) || rs == []) then Invalid
          else Valid(Review(accepted, Strip(d["summary"].text), fs, rs))
  }

  /** An accepted review asks for nothing; a rejected one names an error and a change. Both are bounded. */
  ghost predicate Coherent(r: Review) {
    && (r.accepted ==> r.required == [] && !HasError(r.findings))
    && (!r.accepted ==> r.required != [] && HasError(r.findings))
    && |r.findings| <= 10 && |r.required| <= 10 && r.summary != ""
  }

  lemma {:induction false} ReviewsAreCoherent(document: Document)
    requires Validate(document).Valid?
    ensures Coherent(Validate(document).value)
  {
  }

  lemma {:induction false} KeyFacts()
    ensures MARKER !in REVIEW_KEYS && REQUIRED in REVIEW_KEYS && MARKER != REQUIRED
    ensures "accepted" != MARKER && "findings" != MARKER && "summary" != MARKER
    ensures "accepted" != REQUIRED && "findings" != REQUIRED && "summary" != REQUIRED
  {
    assert |MARKER| == 22 && |REQUIRED| == 16 && |"accepted"| == 8 && |"findings"| == 8 && |"summary"| == 7;
  }

  /** Normalizing twice is normalizing once, and leaves a document of the strict schema alone. */
  lemma {:induction false} NormalizeIdempotent(d: Document)
    ensures Normalize(Normalize(d)) == Normalize(d)
    ensures d.Keys == REVIEW_KEYS ==> Normalize(d) == d
  {
    KeyFacts();
  }

  /** Normalizing adds no authority: the verdict, summary, findings and any stated changes are the
      document's own; the one thing it can supply is the empty list of an acceptance. */
  lemma {:induction false} NormalizeAddsNothing(d: Document)
    ensures forall key | key in d && key != MARKER :: key in Normalize(d) && Normalize(d)[key] == d[key]
    ensures forall key | key in Normalize(d) && key !in d ::
      key == REQUIRED && Normalize(d)[key] == JList([]) && "accepted" in d && d["accepted"] == JBool(true)
  {
    KeyFacts();
  }

  /** The marker says of the list of changes whether it is empty, or is itself an empty list beside one. */
  ghost predicate MarkerAgrees(marker: Json, d: Document) {
    && REQUIRED in d && d[REQUIRED].JList?
    && (marker == JBool(|d[REQUIRED].items| == 0) || (marker == JList([]) && |d[REQUIRED].items| == 0))
  }

  /** The marker goes exactly when it agrees with the list of changes, stated or supplied; and an acceptance
      with findings may leave that list out. */
  lemma {:induction false} NormalizeDrops(d: Document)
    ensures MARKER in Normalize(d) ==> MARKER in d && !MarkerAgrees(d[MARKER], Normalize(d))
    ensures MARKER in d && !MarkerAgrees(d[MARKER], Normalize(d)) ==> MARKER in Normalize(d)
    ensures "accepted" in d && d["accepted"] == JBool(true) && "findings" in d && d["findings"].JList? ==>
      (REQUIRED in Normalize(d) && (REQUIRED !in d ==> Normalize(d)[REQUIRED] == JList([])))
  {
    KeyFacts();
  }

  /** So a rejection can never be turned into an acceptance, nor its changes dropped. */
  lemma {:induction false} VerdictIsTheDocuments(d: Document)
    requires Validate(d).Valid?
    ensures "accepted" in d && d["accepted"] == JBool(Validate(d).value.accepted)
    ensures !Validate(d).value.accepted ==>
      REQUIRED in d && d[REQUIRED].JList? && |d[REQUIRED].items| == |Validate(d).value.required| > 0
  {
    KeyFacts();
    NormalizeAddsNothing(d);
    ReviewsAreCoherent(d);
    assert "accepted" in REVIEW_KEYS;
  }

  // ----- What a valid document is -----

  /** `t` is `s` without the white space around it. */
  ghost predicate Trims(t: string, s: string) {
    && (t == "" || (!IsSpace(t[0]) && !IsSpace(t[|t| - 1])))
    && exists i, j :: Between(s, i, j) == Some(t) && Blank(s[..i]) && Blank(s[j..])
  }

  ghost function Between(s: string, i: int, j: int): (r: Option<string>)
    ensures r.Some? <==> 0 <= i <= j <= |s|
  {
    if 0 <= i <= j <= |s| then Some(s[i..j]) else None
  }

  predicate Blank(s: string) { forall i | 0 <= i < |s| :: IsSpace(s[i]) }

  lemma {:induction false} StripLeftIs(s: string)
    ensures |StripLeft(s)| <= |s| && StripLeft(s) == s[|s| - |StripLeft(s)|..] && Blank(s[..|s| - |StripLeft(s)|])
    ensures StripLeft(s) != "" ==> !IsSpace(StripLeft(s)[0])
  {
    if s != [] && IsSpace(s[0]) {
      var n := |s| - |StripLeft(s)|;
      StripLeftIs(s[1..]);
      forall i | 0 <= i < n ensures IsSpace(s[i]) {
        if i > 0 { assert s[1..][..n - 1][i - 1] == s[i]; }
      }
    }
  }

  lemma {:induction false} StripRightIs(s: string)
    ensures |StripRight(s)| <= |s| && StripRight(s) == s[..|StripRight(s)|] && Blank(s[|StripRight(s)|..])
    ensures StripRight(s) != "" ==> !IsSpace(StripRight(s)[|StripRight(s)| - 1])
  {
    if s != [] && IsSpace(s[|s| - 1]) {
      var n, m := |StripRight(s)|, |s| - 1;
      StripRightIs(s[..m]);
      forall i | n <= i < |s| ensures IsSpace(s[i]) {
        if i < m { assert s[..m][n..][i - n] == s[i]; }
      }
      forall i | 0 <= i < |s[n..]| ensures IsSpace(s[n..][i]) { assert s[n..][i] == s[n + i]; }
    }
  }

  lemma {:induction false} StripTrims(s: string)
    ensures Trims(Strip(s), s)
    ensures Strip(s) == "" <==> Blank(s)
  {
    var left, t := StripLeft(s), Strip(s);
    StripLeftIs(s);
    StripRightIs(left);
    var i := |s| - |left|;
    var j := i + |t|;
    assert t == s[i..j];
    assert s[j..] == left[|t|..];
    assert Between(s, i, j) == Some(t);
    if t != "" {
      assert t[0] == left[0];
    } else {
      assert s == s[..i] + s[j..];
    }
  }

  /** A text of at most so many characters, not all of them white space. */
  ghost predicate TextWithin(value: Json, maximum: nat) {
    value.JText? && |value.text| <= maximum && !Blank(value.text)
  }

  lemma {:induction false} BoundedTextIff(value: Json, maximum: nat)
    ensures BoundedText(value, maximum).Valid? <==> TextWithin(value, maximum)
    ensures BoundedText(value, maximum).Valid? ==> Trims(BoundedText(value, maximum).value, value.text)
  {
    if value.JText? { StripTrims(value.text); }
  }

  /** A path segment `..` begins here. */
  ghost predicate ParentAt(s: string, k: int) {
    && 0 <= k <= |s| - 2 && s[k] == '.' && s[k + 1] == '.'
    && (k == 0 || s[k - 1] == '/') && (k + 2 == |s| || s[k + 2] == '/')
  }

  lemma {:induction false} FirstSegmentIs(s: string)
    ensures var t := Split(s, '/')[0];
      |t| <= |s| && t == s[..|t|] && (|t| == |s| || s[|t|] == '/') && forall i | 0 <= i < |t| :: t[i] != '/'
  {
    if s != "" { FirstSegmentIs(s[1..]); }
  }

  lemma {:induction false} FirstSegment(s: string)
    ensures Split(s, '/')[0] == ".." <==> ParentAt(s, 0)
  {
    var t := Split(s, '/')[0];
    FirstSegmentIs(s);
    if t == ".." {
      assert s[0] == t[0] && s[1] == t[1];
    }
    if ParentAt(s, 0) {
      assert |t| == 2 by {
        assert forall i | 0 <= i < |t| :: s[i] == t[i];
      }
      assert t[0] == s[0] && t[1] == s[1];
    }
  }

  lemma {:induction false} LaterSegments(s: string)
    ensures ".." in Split(s, '/')[1..] <==> exists k | 0 < k :: ParentAt(s, k)
  {
    if s != "" {
      var tail := s[1..];
      var rest := Split(tail, '/');
      LaterSegments(tail);
      FirstSegment(tail);
      assert Split(s, '/')[1..] == if s[0] == '/' then rest else rest[1..];
      assert rest == [rest[0]] + rest[1..];
      if ".." in Split(s, '/')[1..] {
        if s[0] == '/' && rest[0] == ".." {
          assert ParentAt(s, 1);
        } else {
          var k :| 0 < k && ParentAt(tail, k);
          assert ParentAt(s, k + 1);
        }
      }
      if k :| 0 < k && ParentAt(s, k) {
        if k > 1 { assert ParentAt(tail, k - 1); } else { assert ParentAt(tail, 0); }
      }
    }
  }

  /** Not absolute, no backslash, and no segment that is `..`. */
  ghost predicate StaysInside(s: string) {
    (s == "" || s[0] != '/') && (forall i | 0 <= i < |s| :: s[i] != '\\') && !exists k :: ParentAt(s, k)
  }

  lemma {:induction false} RelativePathIff(s: string)
    ensures RelativePath(s) <==> StaysInside(s)
  {
    FirstSegment(s);
    LaterSegments(s);
    var all := Split(s, '/');
    assert all == [all[0]] + all[1..];
    if k :| ParentAt(s, k) { assert k == 0 || k > 0; }
  }

  /** Upper-case letters, digits and underscores, and not only underscores. */
  ghost predicate UpperIdentifier(s: string) {
    && (forall i | 0 <= i < |s| :: 'A' <= s[i] <= 'Z' || '0' <= s[i] <= '9' || s[i] == '_')
    && exists i | 0 <= i < |s| :: s[i] != '_'
  }

  /** The schema of a finding, on the document itself. */
  ghost predicate WellFormedFinding(value: Json) {
    && value.JObject? && value.fields.Keys == {"code", "severity", "path", "message"}
    && TextWithin(value.fields["code"], 80) && UpperIdentifier(Strip(value.fields["code"].text))
    && (value.fields["severity"] == JText("error") || value.fields["severity"] == JText("warning"))
    && TextWithin(value.fields["path"], 500) && StaysInside(Strip(value.fields["path"].text))
    && TextWithin(value.fields["message"], 1000)
  }

  /** The finding says what the document says. */
  ghost predicate Records(f: Finding, value: Json) {
    && value.JObject? && value.fields.Keys == {"code", "severity", "path", "message"}
    && value.fields["code"].JText? && Trims(f.code, value.fields["code"].text)
    && (f.severity == Error <==> value.fields["severity"] == JText("error"))
    && (f.severity == Warning <==> value.fields["severity"] == JText("warning"))
    && value.fields["path"].JText? && Trims(f.path, value.fields["path"].text)
    && value.fields["message"].JText? && Trims(f.message, value.fields["message"].text)
  }

  lemma {:induction false} FindingIff(value: Json)
    ensures CheckFinding(value).Valid? <==> WellFormedFinding(value)
    ensures CheckFinding(value).Valid? ==> Records(CheckFinding(value).value, value)
  {
    hide BoundedText;
    hide Trims;
    hide RelativePath;
    hide StaysInside;
    SeveritiesDiffer();
    if value.JObject? && value.fields.Keys == FINDING_KEYS {
      if value.fields["path"].JText? { RelativePathIff(Strip(value.fields["path"].text)); }
      CheckedText(value.fields["code"], 80);
      CheckedText(value.fields["path"], 500);
      CheckedText(value.fields["message"], 1000);
    }
  }

  lemma {:induction false} CheckedText(value: Json, maximum: nat)
    ensures BoundedText(value, maximum).Valid? <==> TextWithin(value, maximum)
    ensures BoundedText(value, maximum).Valid? ==>
      BoundedText(value, maximum).value == Strip(value.text) && Trims(Strip(value.text), value.text)
  {
    BoundedTextIff(value, maximum);
  }

  lemma {:induction false} SeveritiesDiffer()
    ensures "error" != "warning"
  {
    assert |"error"| == 5 && |"warning"| == 7;
  }

  ghost predicate StatesError(value: Json) {
    value.JObject? && "severity" in value.fields && value.fields["severity"] == JText("error")
  }

  ghost predicate AnyStatesError(items: seq<Json>) { exists i | 0 <= i < |items| :: StatesError(items[i]) }

  /** The schema of a review and its consistency, on the document itself: an acceptance states no error and
      requires nothing, a rejection states an error and requires something. */
  ghost predicate WellFormedReview(d: Document) {
    && d.Keys == {"accepted", "summary", "findings", "required_changes"}
    && d["accepted"].JBool? && TextWithin(d["summary"], 1000)
    && d["findings"].JList? && |d["findings"].items| <= 10
    && d["required_changes"].JList? && |d["required_changes"].items| <= 10
    && (forall i | 0 <= i < |d["findings"].items| :: WellFormedFinding(d["findings"].items[i]))
    && (forall i | 0 <= i < |d["required_changes"].items| :: TextWithin(d["required_changes"].items[i], 1000))
    && (if d["accepted"].flag
        then !AnyStatesError(d["findings"].items) && d["required_changes"].items == []
        else AnyStatesError(d["findings"].items) && d["required_changes"].items != [])
  }

  /** The review is the document's: its verdict, its trimmed texts, its findings and changes one by one. */
  ghost predicate Reads(r: Review, d: Document) {
    && d.Keys == {"accepted", "summary", "findings", "required_changes"}
    && d["accepted"] == JBool(r.accepted)
    && d["summary"].JText? && Trims(r.summary, d["summary"].text)
    && d["findings"].JList? && |r.findings| == |d["findings"].items|
    && (forall i | 0 <= i < |r.findings| :: Records(r.findings[i], d["findings"].items[i]))
    && d["required_changes"].JList? && |r.required| == |d["required_changes"].items|
    && (forall i | 0 <= i < |r.required| ::
          d["required_changes"].items[i].JText? && Trims(r.required[i], d["required_changes"].items[i].text))
  }

  lemma {:induction false} AllFindings(items: seq<Json>)
    ensures CheckAll(items, FindingOf()).Valid? <==> forall i | 0 <= i < |items| :: WellFormedFinding(items[i])
    ensures CheckAll(items, FindingOf()).Valid? ==>
      var fs := CheckAll(items, FindingOf()).value;
      && |fs| == |items| && (forall i | 0 <= i < |items| :: Records(fs[i], items[i]))
      && (HasError(fs) <==> AnyStatesError(items))
  {
    hide CheckFinding;
    hide WellFormedFinding;
    hide Records;
    hide StatesError;
    AllValid(items, FindingOf());
    forall i | 0 <= i < |items|
      ensures FindingOf()(items[i]).Valid? <==> WellFormedFinding(items[i])
      ensures FindingOf()(items[i]).Valid? ==> Records(FindingOf()(items[i]).value, items[i])
      ensures FindingOf()(items[i]).Valid? ==>
        (FindingOf()(items[i]).value.severity == Error <==> StatesError(items[i]))
    {
      FindingIff(items[i]);
      RecordedError(items[i]);
    }
    if CheckAll(items, FindingOf()).Valid? {
      var fs := CheckAll(items, FindingOf()).value;
      assert forall i | 0 <= i < |items| :: FindingOf()(items[i]) == Valid(fs[i]);
      if HasError(fs) {
        var i :| 0 <= i < |fs| && fs[i].severity == Error;
        assert StatesError(items[i]);
      }
      if AnyStatesError(items) {
        var i :| 0 <= i < |items| && StatesError(items[i]);
        assert fs[i].severity == Error;
      }
    }
  }

  lemma {:induction false} RecordedError(value: Json)
    ensures CheckFinding(value).Valid? ==> (CheckFinding(value).value.severity == Error <==> StatesError(value))
  {
    hide BoundedText;
    FindingIff(value);
  }

  lemma {:induction false} AllValid<T>(items: seq<Json>, check: Json -> Checked<T>)
    ensures CheckAll(items, check).Valid? <==> forall i | 0 <= i < |items| :: check(items[i]).Valid?
  {
    if items != [] {
      var rest := items[1..];
      AllValid(rest, check);
      assert forall i | 0 <= i < |rest| :: rest[i] == items[i + 1];
      if forall i | 0 <= i < |items| :: check(items[i]).Valid? {
        assert forall i | 0 <= i < |rest| :: check(rest[i]).Valid?;
      }
      if check(items[0]).Valid? && forall i | 0 <= i < |rest| :: check(rest[i]).Valid? {
        forall i | 0 <= i < |items| ensures check(items[i]).Valid? {
          if i > 0 { assert items[i] == rest[i - 1]; }
        }
      }
    }
  }

  lemma {:induction false} AllTexts(items: seq<Json>, maximum: nat)
    ensures CheckAll(items, TextOf(maximum)).Valid? <==> forall i | 0 <= i < |items| :: TextWithin(items[i], maximum)
    ensures CheckAll(items, TextOf(maximum)).Valid? ==>
      var ts := CheckAll(items, TextOf(maximum)).value;
      |ts| == |items| && forall i | 0 <= i < |items| :: items[i].JText? && Trims(ts[i], items[i].text)
  {
    hide BoundedText;
    hide Trims;
    AllValid(items, TextOf(maximum));
    forall i | 0 <= i < |items|
      ensures TextOf(maximum)(items[i]).Valid? <==> TextWithin(items[i], maximum)
      ensures TextOf(maximum)(items[i]).Valid? ==>
        items[i].JText? && Trims(TextOf(maximum)(items[i]).value, items[i].text)
    {
      BoundedTextIff(items[i], maximum);
    }
  }

  /** A document validates exactly when, normalized, it is a well-formed and consistent review; and what comes
      back is what it says. */
  lemma {:induction false} ValidIff(document: Document)
    ensures Validate(document).Valid? <==> WellFormedReview(Normalize(document))
    ensures Validate(document).Valid? ==> Reads(Validate(document).value, Normalize(document))
  {
    hide CheckAll;
    hide HasError;
    hide AnyStatesError;
    hide WellFormedFinding;
    hide Records;
    hide Normalize;
    hide Trims;
    hide Blank;
    hide Strip;
    var d := Normalize(document);
    ShapedIff(d);
    if Shaped(d) {
      ShapedItems(d);
      StripTrims(d["summary"].text);
      AllFindings(d["findings"].items);
      AllTexts(d[REQUIRED].items, 1000);
      TextsNeverFault(d[REQUIRED].items, 1000);
    }
  }

  lemma {:induction false} ShapedIff(d: Document)
    ensures Shaped(d) <==>
      && d.Keys == {"accepted", "summary", "findings", "required_changes"}
      && d["accepted"].JBool? && TextWithin(d["summary"], 1000)
      && d["findings"].JList? && |d["findings"].items| <= 10
      && d["required_changes"].JList? && |d["required_changes"].items| <= 10
  {
    hide Blank;
    hide Strip;
    if "summary" in d && d["summary"].JText? { StripTrims(d["summary"].text); }
  }

  // ----- The fault outside the schema -----

  /** Everything about a finding is in order up to a severity that is a list or an object. */
  ghost predicate FaultySeverity(value: Json) {
    && value.JObject? && value.fields.Keys == FINDING_KEYS
    && BoundedText(value.fields["code"], 80).Valid? && StableCode(BoundedText(value.fields["code"], 80).value)
    && (value.fields["severity"].JList? || value.fields["severity"].JObject?)
  }

  /** The findings that validation reaches one whose severity is faulty. */
  ghost predicate FaultReached(items: seq<Json>) {
    exists i :: 0 <= i < |items| && FaultySeverity(items[i]) && ValidBefore(items, i)
  }

  ghost predicate ValidBefore(items: seq<Json>, i: nat)
    requires i <= |items|
  {
    forall j | 0 <= j < i :: CheckFinding(items[j]).Valid?
  }

  /** A list of findings faults exactly when one has a faulty severity and all before it are valid. */
  lemma {:induction false} FaultWhenReached(items: seq<Json>)
    ensures CheckAll(items, FindingOf()) == TypeFault <==> FaultReached(items)
  {
    hide CheckFinding;
    hide FaultySeverity;
    if items != [] {
      var rest := items[1..];
      FaultWhenReached(rest);
      FindingFaults(items[0]);
      if CheckAll(items, FindingOf()) == TypeFault && CheckFinding(items[0]).Valid? {
        var k :| 0 <= k < |rest| && FaultySeverity(rest[k]) && ValidBefore(rest, k);
        assert FaultySeverity(items[k + 1]) && ValidBefore(items, k + 1);
      }
      if i :| 0 <= i < |items| && FaultySeverity(items[i]) && ValidBefore(items, i) {
        if i > 0 {
          assert FaultySeverity(rest[i - 1]);
          assert forall j | 0 <= j < i - 1 :: rest[j] == items[j + 1];
        }
      }
    }
  }

  lemma {:induction false} FindingFaults(value: Json)
    ensures CheckFinding(value) == TypeFault <==> FaultySeverity(value)
  {
  }

  /** The required changes are texts, and checking texts never faults. */
  lemma {:induction false} TextsNeverFault(items: seq<Json>, maximum: nat)
    ensures CheckAll(items, TextOf(maximum)) != TypeFault
  {
    hide BoundedText;
    if items != [] {
      TextsNeverFault(items[1..], maximum);
      TextFaults(items[0], maximum);
    }
  }

  lemma {:induction false} TextFaults(value: Json, maximum: nat)
    ensures BoundedText(value, maximum) != TypeFault
  {
  }

  /** Validation breaks on a document exactly when, normalized, it has the shape of a review and
      checking its findings reaches a faulty severity. */
  lemma {:induction false} ValidationFaults(document: Document)
    ensures Validate(document) == TypeFault <==>
      Shaped(Normalize(document)) && FaultReached(Normalize(document)["findings"].items)
  {
    hide Shaped;
    hide FaultReached;
    hide CheckAll;
    var d := Normalize(document);
    if Shaped(d) {
      ShapedItems(d);
      FaultWhenReached(d["findings"].items);
      TextsNeverFault(d[REQUIRED].items, 1000);
    }
  }

  lemma {:induction false} ShapedItems(d: Document)
    requires Shaped(d)
    ensures "accepted" in d && "summary" in d && "findings" in d && REQUIRED in d
    ensures d["accepted"].JBool? && d["summary"].JText? && d["findings"].JList? && d[REQUIRED].JList?
  {
    assert "accepted" in REVIEW_KEYS;
  }

  /** One finding with an otherwise good code and a list as its severity. */
  const FAULTY_FINDING: Json :=
    JObject(map["code" := JText("A"), "severity" := JList([]), "path" := JText("p"), "message" := JText("m")])

  const FAULTY_REVIEW: Document :=
    map["accepted" := JBool(false), "summary" := JText("s"), "findings" := JList([FAULTY_FINDING]),
        REQUIRED := JList([])]

  /** A document that breaks validation. */
  lemma {:induction false} SomeDocumentFaults()
    ensures Validate(FAULTY_REVIEW) == TypeFault
  {
    var d, items := FAULTY_REVIEW, [FAULTY_FINDING];
    FaultyReviewShape();
    FaultyFindingFaults();
    assert FaultySeverity(items[0]) && ValidBefore(items, 0);
    ValidationFaults(d);
  }

  lemma {:induction false} FaultyFindingFaults()
    ensures FaultySeverity(FAULTY_FINDING)
  {
    DistinctFindingKeys();
    var s := "A";
    assert Strip(s) == s by { assert s[|s| - 1] == 'A'; }
    assert s[0] != '_' && CodeChar(s[0]);
    assert BoundedText(JText(s), 80) == Valid(s);
    assert StableCode(s);
    assert FAULTY_FINDING.fields.Keys == FINDING_KEYS;
    assert FAULTY_FINDING.fields["code"] == JText(s) && FAULTY_FINDING.fields["severity"] == JList([]);
  }

  lemma {:induction false} DistinctFindingKeys()
    ensures "code" != "severity" && "code" != "path" && "code" != "message"
    ensures "severity" != "path" && "severity" != "message" && "path" != "message"
  {
    assert |"code"| == 4 && |"severity"| == 8 && |"path"| == 4 && |"message"| == 7;
    assert "code"[0] == 'c' && "path"[0] == 'p';
  }

  lemma {:induction false} FaultyReviewShape()
    ensures Normalize(FAULTY_REVIEW) == FAULTY_REVIEW && Shaped(FAULTY_REVIEW)
    ensures FAULTY_REVIEW["findings"] == JList([FAULTY_FINDING])
  {
    KeyFacts();
    var d, s := FAULTY_REVIEW, "s";
    assert "accepted" != "summary" && "accepted" != "findings" && "summary" != "findings" by {
      assert |"accepted"| == 8 && |"findings"| == 8 && |"summary"| == 7 && "accepted"[0] == 'a' && "findings"[0] == 'f';
    }
    assert d.Keys == REVIEW_KEYS;
    NormalizeIdempotent(d);
    assert Strip(s) == s by { assert s[|s| - 1] == 's'; }
  }
}
