/**
 * app/login.tsx: `handleQRCodeData`, which reads five fields out of the
 * decoded QR text with regular expressions and, when all five are present,
 * stores the base URL and a session marker and fills the user slice.
 *
 * Each of the five expressions has the shape `literal (class+)`, the API one
 * also anchored at the end of the text. `LeftmostMatch` is the JavaScript
 * search for such a pattern: the first start position at which it matches,
 * the class run taken greedily. The base64 decoding, the storage and the
 * navigation are outside the model; their results and effects enter as
 * values and as the `Storage` object.
 */
module Login {
  import opened Js
  import UserSlice

  // ---------------------------------------------------------------------------
  // Character classes and patterns

  datatype CharClass =
    /** `\w` */
    | Word
    /** `[\w-]` */
    | WordOrDash
    /** `[\w@.-]` */
    | UserIdChar
    /** `.` without the `s` flag */
    | NotLineTerminator

  predicate IsWordChar(c: char)
  {
    ('a' <= c <= 'z') || ('A' <= c <= 'Z') || ('0' <= c <= '9') || c == '_'
  }

  predicate IsLineTerminator(c: char)
  {
    c == '\n' || c == '\r' || c == '\U{2028}' || c == '\U{2029}'
  }

  predicate InClass(c: char, k: CharClass)
  {
    match k
    case Word => IsWordChar(c)
    case WordOrDash => IsWordChar(c) || c == '-'
    case UserIdChar => IsWordChar(c) || c == '@' || c == '.' || c == '-'
    case NotLineTerminator => !IsLineTerminator(c)
  }

  /** The length of the longest prefix of `s` made of characters in class `k`. */
  function RunLength(s: string, k: CharClass): (n: nat)
    ensures n <= |s|
    ensures forall j :: 0 <= j < n ==> InClass(s[j], k)
    ensures n < |s| ==> !InClass(s[n], k)
  {
    if s == [] || !InClass(s[0], k) then 0 else 1 + RunLength(s[1..], k)
  }

  /**
   * `literal (class+)`, or `literal (class+)$` when `toEnd`; the capture group
   * starts `groupStart` characters into the literal.
   */
  datatype Pattern = Pattern(literal: string, groupStart: nat, cls: CharClass, toEnd: bool)

  predicate WellFormed(p: Pattern)
  {
    p.groupStart <= |p.literal|
  }

  /** `/Company: (\w+)/` */
  const CompanyPattern := Pattern("Company: ", 9, Word, false)
  /** `/Employee_Code: ([\w-]+)/` */
  const EmployeeCodePattern := Pattern("Employee_Code: ", 15, WordOrDash, false)
  /** `/User_id: ([\w@.-]+)/` */
  const UserIdPattern := Pattern("User_id: ", 9, UserIdChar, false)
  /** `/Full_Name: (.+)/` */
  const FullNamePattern := Pattern("Full_Name: ", 11, NotLineTerminator, false)
  /** `/API: (https:\/\/.+)$/`: the group keeps the `https://`. */
  const ApiPattern := Pattern("API: https://", 5, NotLineTerminator, true)
  const HttpsScheme := "https://"

  /** Where the class run after the literal ends, for a start position `i`. */
  function RunEnd(s: string, i: nat, p: Pattern): nat
    requires i + |p.literal| <= |s|
  {
    i + |p.literal| + RunLength(s[i + |p.literal|..], p.cls)
  }

  /** The pattern matches at start position `i`. */
  predicate MatchesAt(s: string, i: nat, p: Pattern)
  {
    && i + |p.literal| < |s|
    && s[i..i + |p.literal|] == p.literal
    && InClass(s[i + |p.literal|], p.cls)
    && (p.toEnd ==> RunEnd(s, i, p) == |s|)
  }

  /** The text of the capture group for a match at `i`. */
  function Capture(s: string, i: nat, p: Pattern): string
    requires WellFormed(p) && MatchesAt(s, i, p)
  {
    s[i + p.groupStart..RunEnd(s, i, p)]
  }

  /** The first start position at or after `from` where the pattern matches. */
  function LeftmostMatch(s: string, p: Pattern, from: nat): Option<nat>
    decreases |s| - from
  {
    if from + |p.literal| >= |s| then None
    else if MatchesAt(s, from, p) then Some(from)
    else LeftmostMatch(s, p, from + 1)
  }

  /** `s.match(p)?.[1]` */
  function Match(s: string, p: Pattern): Option<string>
    requires WellFormed(p)
  {
    match LeftmostMatch(s, p, 0)
    case Some(i) => if MatchesAt(s, i, p) then Some(Capture(s, i, p)) else None
    case None => None
  }

  /**
   * The search finds a position exactly when the pattern matches somewhere
   * at or after `from`, and the position it finds is the first such.
   */
  lemma {:induction false} LeftmostMatchSpec(s: string, p: Pattern, from: nat)
    ensures var r := LeftmostMatch(s, p, from);
      && (r.Some? ==>
            from <= r.value && MatchesAt(s, r.value, p) && forall j: nat :: from <= j < r.value ==> !MatchesAt(s, j, p))
      && (r.None? ==> forall j: nat :: from <= j ==> !MatchesAt(s, j, p))
    decreases |s| - from
  {
    if from + |p.literal| < |s| && !MatchesAt(s, from, p) {
      LeftmostMatchSpec(s, p, from + 1);
    }
  }

  /** The shape of a capture: the literal's tail, then a maximal non-empty run of the class. */
  lemma CaptureShape(s: string, i: nat, p: Pattern)
    requires WellFormed(p) && MatchesAt(s, i, p)
    ensures var c := Capture(s, i, p);
      var lead := p.literal[p.groupStart..];
      && |lead| < |c| && c[..|lead|] == lead
      && (forall j :: |lead| <= j < |c| ==> InClass(c[j], p.cls))
      && (RunEnd(s, i, p) < |s| ==> !InClass(s[RunEnd(s, i, p)], p.cls))
      && (p.toEnd ==> RunEnd(s, i, p) == |s|)
  {
    var n := i + |p.literal|;
    var c := Capture(s, i, p);
    var lead := p.literal[p.groupStart..];
    var g := p.groupStart;
    assert RunLength(s[n..], p.cls) > 0;
    var e := RunEnd(s, i, p);
    assert n < e && c == s[i + g..e];
    assert |lead| == n - (i + g);
    assert c[..|lead|] == s[i + g..n] by {
      forall k | 0 <= k < |lead|
        ensures c[..|lead|][k] == s[i + g..n][k]
      {
        assert c[k] == s[i + g + k];
      }
    }
    assert s[i + g..n] == s[i..n][g..];
    forall j | |lead| <= j < |c|
      ensures InClass(c[j], p.cls)
    {
      assert c[j] == s[n..][j - |lead|];
    }
    if RunEnd(s, i, p) < |s| {
      assert s[RunEnd(s, i, p)] == s[n..][RunLength(s[n..], p.cls)];
    }
  }

  /**
   * `c` is the capture of the leftmost match of `p` in `s`, and its class run
   * is maximal: the character after it, if any, is not in the class.
   */
  ghost predicate IsLeftmostCapture(s: string, p: Pattern, c: string)
    requires WellFormed(p)
  {
    exists i: nat :: MatchesAt(s, i, p)
      && (forall j: nat :: j < i ==> !MatchesAt(s, j, p))
      && c == Capture(s, i, p)
      && (RunEnd(s, i, p) < |s| ==> !InClass(s[RunEnd(s, i, p)], p.cls))
      && (p.toEnd ==> RunEnd(s, i, p) == |s|)
  }

  /** Every character of `c` from position `from` on is in class `k`. */
  predicate AllInClass(c: string, from: nat, k: CharClass)
  {
    forall j :: from <= j < |c| ==> InClass(c[j], k)
  }

  /**
   * A match is found exactly when the pattern matches somewhere. What is
   * found is the leftmost capture: the literal's tail followed by a non-empty
   * run of the class.
   */
  lemma MatchSpec(s: string, p: Pattern)
    requires WellFormed(p)
    ensures Match(s, p).Some? <==> exists i: nat :: MatchesAt(s, i, p)
    ensures Match(s, p).Some? ==>
      var c := Match(s, p).value;
      var lead := p.literal[p.groupStart..];
      && IsLeftmostCapture(s, p, c)
      && |lead| < |c| && c[..|lead|] == lead
      && AllInClass(c, |lead|, p.cls)
  {
    LeftmostMatchSpec(s, p, 0);
    var r := LeftmostMatch(s, p, 0);
    if r.Some? {
      CaptureShape(s, r.value, p);
    }
  }

  // ---------------------------------------------------------------------------
  // The accept/reject decision

  datatype QrLogin = QrLogin(company: string, employeeCode: string, userId: string, fullName: string, api: string)

  /** The five fields, or `None` unless all five expressions match. */
  function ParseQr(value: string): (r: Option<QrLogin>)
    ensures r.Some? ==> Trim(r.value.fullName) == r.value.fullName
  {
    var company := Match(value, CompanyPattern);
    var employeeCode := Match(value, EmployeeCodePattern);
    var userId := Match(value, UserIdPattern);
    var fullName := Match(value, FullNamePattern);
    var api := Match(value, ApiPattern);
    if company.Some? && employeeCode.Some? && userId.Some? && fullName.Some? && api.Some? then
      TrimIdempotent(fullName.value);
      Some(QrLogin(company.value, employeeCode.value, userId.value, Trim(fullName.value), api.value))
    else None
  }

  /** The parsed fields are the five matches, the full name trimmed. */
  lemma ParsedFields(value: string)
    requires ParseQr(value).Some?
    ensures var q := ParseQr(value).value;
      && Match(value, CompanyPattern) == Some(q.company)
      && Match(value, EmployeeCodePattern) == Some(q.employeeCode)
      && Match(value, UserIdPattern) == Some(q.userId)
      && Match(value, FullNamePattern).Some? && q.fullName == Trim(Match(value, FullNamePattern).value)
      && Match(value, ApiPattern) == Some(q.api)
  {
  }

  /** The QR text is accepted exactly when each of the five patterns matches somewhere in it. */
  lemma AcceptsIffAllFive(value: string)
    ensures ParseQr(value).Some? <==>
      && (exists i: nat :: MatchesAt(value, i, CompanyPattern))
      && (exists i: nat :: MatchesAt(value, i, EmployeeCodePattern))
      && (exists i: nat :: MatchesAt(value, i, UserIdPattern))
      && (exists i: nat :: MatchesAt(value, i, FullNamePattern))
      && (exists i: nat :: MatchesAt(value, i, ApiPattern))
  {
    MatchSpec(value, CompanyPattern);
    MatchSpec(value, EmployeeCodePattern);
    MatchSpec(value, UserIdPattern);
    MatchSpec(value, FullNamePattern);
    MatchSpec(value, ApiPattern);
  }

  /**
   * `company` is the maximal run of word characters of the leftmost
   * `Company: ` followed by one; `employeeCode` is a run of word characters
   * and `-`, `userId` a run of word characters, `@`, `.` and `-`, each the
   * leftmost one after its label.
   */
  lemma FieldCharacters(value: string)
    requires ParseQr(value).Some?
    ensures var q := ParseQr(value).value;
      && |q.company| > 0 && AllInClass(q.company, 0, Word)
      && IsLeftmostCapture(value, CompanyPattern, q.company)
      && |q.employeeCode| > 0 && AllInClass(q.employeeCode, 0, WordOrDash)
      && IsLeftmostCapture(value, EmployeeCodePattern, q.employeeCode)
      && |q.userId| > 0 && AllInClass(q.userId, 0, UserIdChar)
      && IsLeftmostCapture(value, UserIdPattern, q.userId)
  {
    ParsedFields(value);
    MatchSpec(value, CompanyPattern);
    MatchSpec(value, EmployeeCodePattern);
    MatchSpec(value, UserIdPattern);
  }

  /**
   * `fullName` is the leftmost `Full_Name: ` line's remainder, which holds no
   * line terminator and runs to the end of the line, trimmed.
   */
  lemma FullNameIsTrimmedLine(value: string)
    requires ParseQr(value).Some?
    ensures Match(value, FullNamePattern).Some?
    ensures var line := Match(value, FullNamePattern).value;
      && IsLeftmostCapture(value, FullNamePattern, line)
      && AllInClass(line, 0, NotLineTerminator)
      && ParseQr(value).value.fullName == Trim(line)
  {
    ParsedFields(value);
    MatchSpec(value, FullNamePattern);
  }

  /** A capture of a pattern anchored at the end is a suffix of the text. */
  lemma AnchoredCaptureIsSuffix(s: string, p: Pattern, c: string)
    requires WellFormed(p) && p.toEnd && IsLeftmostCapture(s, p, c)
    ensures |c| <= |s| && s[|s| - |c|..] == c
  {
  }

  lemma ApiLead()
    ensures ApiPattern.literal[ApiPattern.groupStart..] == HttpsScheme
    ensures AllInClass(HttpsScheme, 0, NotLineTerminator)
  {
  }

  lemma AllInClassJoin(c: string, lead: string, k: CharClass)
    requires |lead| <= |c| && c[..|lead|] == lead
    requires AllInClass(lead, 0, k) && AllInClass(c, |lead|, k)
    ensures AllInClass(c, 0, k)
  {
    forall j | 0 <= j < |lead|
      ensures InClass(c[j], k)
    {
      assert c[j] == lead[j];
    }
  }

  /**
   * The API value starts with `https://`, runs to the end of the decoded
   * text and contains no line terminator.
   */
  lemma ApiRunsToEnd(value: string)
    requires ParseQr(value).Some?
    ensures var api := ParseQr(value).value.api;
      && |HttpsScheme| < |api| && api[..|HttpsScheme|] == HttpsScheme
      && AllInClass(api, 0, NotLineTerminator)
      && |api| <= |value| && value[|value| - |api|..] == api
  {
    ParsedFields(value);
    var api := ParseQr(value).value.api;
    MatchSpec(value, ApiPattern);
    ApiLead();
    AnchoredCaptureIsSuffix(value, ApiPattern, api);
    AllInClassJoin(api, HttpsScheme, NotLineTerminator);
  }

  /** A class run stops at the first character outside the class. */
  lemma {:induction false} RunStopsAt(s: string, k: CharClass, m: nat)
    requires m < |s| && !InClass(s[m], k)
    ensures RunLength(s, k) <= m
  {
    if m > 0 && InClass(s[0], k) {
      RunStopsAt(s[1..], k, m - 1);
    }
  }

  /** A text made only of class characters is one whole run. */
  lemma {:induction false} RunCoversAll(s: string, k: CharClass)
    requires AllInClass(s, 0, k)
    ensures RunLength(s, k) == |s|
  {
    if s != [] {
      assert InClass(s[0], k);
      assert AllInClass(s[1..], 0, k) by {
        forall j | 0 <= j < |s[1..]|
          ensures InClass(s[1..][j], k)
        {
          assert s[1..][j] == s[j + 1];
        }
      }
      RunCoversAll(s[1..], k);
    }
  }

  /** When the pattern matches at `i` and nowhere before, `Match` captures at `i`. */
  lemma MatchAt(s: string, p: Pattern, i: nat)
    requires WellFormed(p) && MatchesAt(s, i, p)
    requires forall j: nat :: j < i ==> !MatchesAt(s, j, p)
    ensures Match(s, p) == Some(Capture(s, i, p))
  {
    LeftmostMatchSpec(s, p, 0);
  }

  /**
   * A pattern anchored at the end, whose class excludes line terminators and
   * whose literal holds no `\n`, cannot match at or before a `\n`.
   */
  lemma NoMatchAcrossLineEnd(s: string, p: Pattern, nl: nat, j: nat)
    requires p.toEnd && p.cls == NotLineTerminator && '\n' !in p.literal
    requires nl < |s| && s[nl] == '\n' && j <= nl
    ensures !MatchesAt(s, j, p)
  {
    var lit := p.literal;
    if j + |lit| <= nl {
      var t := s[j + |lit|..];
      assert t[nl - (j + |lit|)] == '\n';
      RunStopsAt(t, NotLineTerminator, nl - (j + |lit|));
    } else if j + |lit| <= |s| {
      var w := s[j..j + |lit|];
      assert w[nl - j] == '\n';
      assert w != lit by {
        assert lit[nl - j] in lit;
      }
    }
  }

  /**
   * For a pattern anchored at the end whose class is "not a line
   * terminator": when its literal opens the last line, the capture is the
   * literal's tail followed by the whole rest of that line.
   */
  lemma AnchoredOnLastLine(pre: string, p: Pattern, rest: string)
    requires WellFormed(p) && p.toEnd && p.cls == NotLineTerminator && '\n' !in p.literal
    requires |rest| > 0 && AllInClass(rest, 0, NotLineTerminator)
    ensures Match(pre + "\n" + p.literal + rest, p) == Some(p.literal[p.groupStart..] + rest)
  {
    var lit := p.literal;
    var value := pre + "\n" + lit + rest;
    var a := |pre| + 1;
    assert value[|pre|] == '\n';
    assert value[a..] == lit + rest;
    AnchoredMatchAt(value, p, a);
    forall j: nat | j < a
      ensures !MatchesAt(value, j, p)
    {
      NoMatchAcrossLineEnd(value, p, |pre|, j);
    }
    MatchAt(value, p, a);
    assert value[a + p.groupStart..] == (lit + rest)[p.groupStart..] == lit[p.groupStart..] + rest;
  }

  /**
   * An anchored pattern whose literal is followed by class characters up to
   * the end matches there, and captures everything from its group start.
   */
  lemma AnchoredMatchAt(value: string, p: Pattern, a: nat)
    requires WellFormed(p) && p.toEnd
    requires |p.literal| < |value| - a && value[a..] == p.literal + value[a + |p.literal|..]
    requires AllInClass(value[a + |p.literal|..], 0, p.cls)
    ensures MatchesAt(value, a, p) && Capture(value, a, p) == value[a + p.groupStart..]
  {
    var n := a + |p.literal|;
    var rest := value[n..];
    assert value[a..n] == p.literal by {
      assert value[a..n] == value[a..][..|p.literal|];
    }
    assert value[n] == rest[0];
    RunCoversAll(rest, p.cls);
  }

  /**
   * When `API: https://` opens the last line, the captured API value is the
   * whole rest of that line: a port or a path after the host is kept.
   */
  lemma ApiOnLastLine(pre: string, rest: string)
    requires |rest| > 0 && AllInClass(rest, 0, NotLineTerminator)
    ensures Match(pre + "\n" + ApiPattern.literal + rest, ApiPattern) == Some(HttpsScheme + rest)
  {
    ApiLead();
    assert '\n' !in ApiPattern.literal;
    AnchoredOnLastLine(pre, ApiPattern, rest);
  }

  /** A label with its value, a line break, and what follows. */
  function Labelled(p: Pattern, v: string, next: string): string
  {
    p.literal + (v + ("\n" + next))
  }

  /** A pattern not anchored at the end matches a labelled line whose value opens with a class character. */
  lemma LabelledMatches(p: Pattern, v: string, next: string)
    requires !p.toEnd && |v| > 0 && InClass(v[0], p.cls)
    ensures MatchesAt(Labelled(p, v, next), 0, p)
  {
    var s := Labelled(p, v, next);
    assert s[..|p.literal|] == p.literal;
    assert s[|p.literal|] == v[0];
  }

  /** A match of a pattern not anchored at the end survives putting a labelled line in front. */
  lemma LabelledKeeps(q: Pattern, v: string, next: string, p: Pattern, j: nat)
    requires !p.toEnd && MatchesAt(next, j, p)
    ensures MatchesAt(Labelled(q, v, next), |q.literal| + |v| + 1 + j, p)
  {
    var a := q.literal + v + "\n";
    var s := Labelled(q, v, next);
    assert s == a + next;
    var i := |a| + j;
    assert s[i..i + |p.literal|] == next[j..j + |p.literal|];
    assert s[i + |p.literal|] == next[j + |p.literal|];
  }

  /** The five labelled lines, in the order the login QR codes carry them, the API line last. */
  function QrText(company: string, employeeCode: string, userId: string, fullName: string, apiRest: string): string
  {
    Labelled(CompanyPattern, company,
      Labelled(EmployeeCodePattern, employeeCode,
        Labelled(UserIdPattern, userId,
          Labelled(FullNamePattern, fullName, ApiPattern.literal + apiRest))))
  }

  lemma QrTextCompany(company: string, employeeCode: string, userId: string, fullName: string, apiRest: string)
    requires |company| > 0 && InClass(company[0], Word)
    ensures exists i: nat :: MatchesAt(QrText(company, employeeCode, userId, fullName, apiRest), i, CompanyPattern)
  {
    var next := Labelled(EmployeeCodePattern, employeeCode,
      Labelled(UserIdPattern, userId, Labelled(FullNamePattern, fullName, ApiPattern.literal + apiRest)));
    LabelledMatches(CompanyPattern, company, next);
    assert MatchesAt(QrText(company, employeeCode, userId, fullName, apiRest), 0, CompanyPattern);
  }

  lemma QrTextEmployeeCode(company: string, employeeCode: string, userId: string, fullName: string, apiRest: string)
    requires |employeeCode| > 0 && InClass(employeeCode[0], WordOrDash)
    ensures exists i: nat :: MatchesAt(QrText(company, employeeCode, userId, fullName, apiRest), i, EmployeeCodePattern)
  {
    var next := Labelled(UserIdPattern, userId, Labelled(FullNamePattern, fullName, ApiPattern.literal + apiRest));
    LabelledMatches(EmployeeCodePattern, employeeCode, next);
    var i := |CompanyPattern.literal| + |company| + 1;
    LabelledKeeps(CompanyPattern, company, Labelled(EmployeeCodePattern, employeeCode, next), EmployeeCodePattern, 0);
    assert MatchesAt(QrText(company, employeeCode, userId, fullName, apiRest), i, EmployeeCodePattern);
  }

  lemma QrTextUserId(company: string, employeeCode: string, userId: string, fullName: string, apiRest: string)
    requires |userId| > 0 && InClass(userId[0], UserIdChar)
    ensures exists i: nat :: MatchesAt(QrText(company, employeeCode, userId, fullName, apiRest), i, UserIdPattern)
  {
    var next := Labelled(FullNamePattern, fullName, ApiPattern.literal + apiRest);
    var u := Labelled(UserIdPattern, userId, next);
    LabelledMatches(UserIdPattern, userId, next);
    var j := |EmployeeCodePattern.literal| + |employeeCode| + 1;
    LabelledKeeps(EmployeeCodePattern, employeeCode, u, UserIdPattern, 0);
    var i := |CompanyPattern.literal| + |company| + 1 + j;
    LabelledKeeps(CompanyPattern, company, Labelled(EmployeeCodePattern, employeeCode, u), UserIdPattern, j);
    assert MatchesAt(QrText(company, employeeCode, userId, fullName, apiRest), i, UserIdPattern);
  }

  lemma QrTextFullName(company: string, employeeCode: string, userId: string, fullName: string, apiRest: string)
    requires |fullName| > 0 && InClass(fullName[0], NotLineTerminator)
    ensures exists i: nat :: MatchesAt(QrText(company, employeeCode, userId, fullName, apiRest), i, FullNamePattern)
  {
    var f := Labelled(FullNamePattern, fullName, ApiPattern.literal + apiRest);
    var u := Labelled(UserIdPattern, userId, f);
    LabelledMatches(FullNamePattern, fullName, ApiPattern.literal + apiRest);
    var k := |UserIdPattern.literal| + |userId| + 1;
    LabelledKeeps(UserIdPattern, userId, f, FullNamePattern, 0);
    var j := |EmployeeCodePattern.literal| + |employeeCode| + 1 + k;
    LabelledKeeps(EmployeeCodePattern, employeeCode, u, FullNamePattern, k);
    var i := |CompanyPattern.literal| + |company| + 1 + j;
    LabelledKeeps(CompanyPattern, company, Labelled(EmployeeCodePattern, employeeCode, u), FullNamePattern, j);
    assert MatchesAt(QrText(company, employeeCode, userId, fullName, apiRest), i, FullNamePattern);
  }

  /** A labelled line in front of `pre` and a line break: the same text, grouped the other way. */
  lemma LabelledRegroup(q: Pattern, v: string, pre: string, x: string)
    ensures Labelled(q, v, pre + "\n" + x) == (q.literal + v + "\n" + pre) + "\n" + x
  {
  }

  lemma QrTextApi(company: string, employeeCode: string, userId: string, fullName: string, apiRest: string)
    requires |apiRest| > 0 && AllInClass(apiRest, 0, NotLineTerminator)
    ensures Match(QrText(company, employeeCode, userId, fullName, apiRest), ApiPattern) == Some(HttpsScheme + apiRest)
  {
    var x := ApiPattern.literal + apiRest;
    var p4 := FullNamePattern.literal + fullName;
    assert Labelled(FullNamePattern, fullName, x) == p4 + "\n" + x;
    var p3 := UserIdPattern.literal + userId + "\n" + p4;
    LabelledRegroup(UserIdPattern, userId, p4, x);
    var p2 := EmployeeCodePattern.literal + employeeCode + "\n" + p3;
    LabelledRegroup(EmployeeCodePattern, employeeCode, p3, x);
    var p1 := CompanyPattern.literal + company + "\n" + p2;
    LabelledRegroup(CompanyPattern, company, p2, x);
    assert QrText(company, employeeCode, userId, fullName, apiRest) == p1 + "\n" + x;
    assert p1 + "\n" + x == p1 + "\n" + ApiPattern.literal + apiRest;
    ApiOnLastLine(p1, apiRest);
  }

  /**
   * A text of the five labelled lines, each value opening with a character of
   * its class and the API line last, is accepted; its API value is `https://`
   * followed by the whole rest of the last line.
   */
  lemma FiveLinesAccepted(company: string, employeeCode: string, userId: string, fullName: string, apiRest: string)
    requires |company| > 0 && InClass(company[0], Word)
    requires |employeeCode| > 0 && InClass(employeeCode[0], WordOrDash)
    requires |userId| > 0 && InClass(userId[0], UserIdChar)
    requires |fullName| > 0 && InClass(fullName[0], NotLineTerminator)
    requires |apiRest| > 0 && AllInClass(apiRest, 0, NotLineTerminator)
    ensures var value := QrText(company, employeeCode, userId, fullName, apiRest);
      ParseQr(value).Some? && ParseQr(value).value.api == HttpsScheme + apiRest
  {
    var value := QrText(company, employeeCode, userId, fullName, apiRest);
    QrTextCompany(company, employeeCode, userId, fullName, apiRest);
    QrTextEmployeeCode(company, employeeCode, userId, fullName, apiRest);
    QrTextUserId(company, employeeCode, userId, fullName, apiRest);
    QrTextFullName(company, employeeCode, userId, fullName, apiRest);
    QrTextApi(company, employeeCode, userId, fullName, apiRest);
    AcceptedWithApi(value, HttpsScheme + apiRest);
  }

  /** A text in which all five patterns match is accepted, with the API pattern's capture as its API value. */
  lemma AcceptedWithApi(value: string, api: string)
    requires exists i: nat :: MatchesAt(value, i, CompanyPattern)
    requires exists i: nat :: MatchesAt(value, i, EmployeeCodePattern)
    requires exists i: nat :: MatchesAt(value, i, UserIdPattern)
    requires exists i: nat :: MatchesAt(value, i, FullNamePattern)
    requires Match(value, ApiPattern) == Some(api)
    ensures ParseQr(value).Some? && ParseQr(value).value.api == api
  {
    AcceptsIffAllFive(value);
    MatchSpec(value, ApiPattern);
    ParsedFields(value);
  }

  /**
   * The example login text (`Company: Acme`, `Employee_Code: E1`,
   * `User_id: u@x.com`, `Full_Name: Jane Doe`,
   * `API: https://host:443/api/method/x`) is accepted, and its base URL keeps
   * the port and the path.
   */
  lemma ExampleKeepsPortAndPath(company: string, employeeCode: string, userId: string, fullName: string, apiRest: string)
    requires company == "Acme" && employeeCode == "E1" && userId == "u@x.com" && fullName == "Jane Doe"
    requires apiRest == "host:443/api/method/x"
    ensures ParseQr(QrText(company, employeeCode, userId, fullName, apiRest)).Some?
    ensures ParseQr(QrText(company, employeeCode, userId, fullName, apiRest)).value.api == "https://host:443/api/method/x"
  {
    assert AllInClass(apiRest, 0, NotLineTerminator);
    assert IsWordChar(company[0]);
    FiveLinesAccepted(company, employeeCode, userId, fullName, apiRest);
    ExampleUrl();
  }

  lemma ExampleUrl()
    ensures HttpsScheme + "host:443/api/method/x" == "https://host:443/api/method/x"
  {
  }

  // ---------------------------------------------------------------------------
  // The effects

  /** The dispatches of the accept branch, in order. */
  function LoginActions(q: QrLogin): seq<UserSlice.Action>
  {
    [ UserSlice.SetFullname(Some(q.fullName)),
      UserSlice.SetUsername(Some(q.userId)),
      UserSlice.SetBaseUrl(Some(q.api)),
      UserSlice.SetUserDetails(Some(UserDetailsOf(q))) ]
  }

  /** `{ company, employeeCode, fullName, api }` */
  function UserDetailsOf(q: QrLogin): Json
  {
    JObj(map["company" := JStr(q.company), "employeeCode" := JStr(q.employeeCode),
             "fullName" := JStr(q.fullName), "api" := JStr(q.api)])
  }

  /** The persistent key-value store. */
  class Storage {
    var items: map<string, string>

    constructor ()
      ensures items == map[]
    {
      items := map[];
    }

    method SetItem(key: string, value: string)
      modifies this
      ensures items == old(items)[key := value]
    {
      items := items[key := value];
    }
  }

  /** What the user sees at the end: an alert, or the home screen. */
  datatype Effect = Alert(title: string, message: string) | Navigate(route: string)

  const HomeRoute := "/(tabs)/home"
  const InvalidAlert := Alert("Invalid QR Code", "Please scan a valid company QR Code.")
  const ErrorAlert := Alert("Error", "Failed to process QR Code.")

  /**
   * `handleQRCodeData`, given the decoded text (`None` when decoding throws).
   * On acceptance the base URL and the session marker are stored and the
   * four actions dispatched before navigating home; otherwise an alert is
   * shown and nothing is stored or dispatched.
   */
  method HandleQrCodeData(decoded: Option<string>, storage: Storage, user: UserSlice.UserDraft) returns (effect: Effect)
    modifies storage, user
    ensures decoded.None? ==> effect == ErrorAlert
    ensures decoded.Some? && ParseQr(decoded.value).None? ==> effect == InvalidAlert
    ensures decoded.None? || ParseQr(decoded.value).None? ==>
      storage.items == old(storage.items) && user.Snapshot() == old(user.Snapshot())
    ensures decoded.Some? && ParseQr(decoded.value).Some? ==>
      var q := ParseQr(decoded.value).value;
      && storage.items == old(storage.items)["baseUrl" := q.api]["userToken" := "authenticated"]
      && user.Snapshot() == UserSlice.ReduceAll(old(user.Snapshot()), LoginActions(q))
      && effect == Navigate(HomeRoute)
  {
    if decoded.None? {
      return ErrorAlert;
    }
    var login := ParseQr(decoded.value);
    if login.None? {
      return InvalidAlert;
    }
    var q := login.value;
    storage.SetItem("baseUrl", q.api);
    storage.SetItem("userToken", "authenticated");
    ghost var s0 := user.Snapshot();
    user.Dispatch(UserSlice.SetFullname(Some(q.fullName)));
    user.Dispatch(UserSlice.SetUsername(Some(q.userId)));
    user.Dispatch(UserSlice.SetBaseUrl(Some(q.api)));
    user.Dispatch(UserSlice.SetUserDetails(Some(UserDetailsOf(q))));
    AfterLoginState(s0, q);
    effect := Navigate(HomeRoute);
  }

  /** The state after the four dispatches, field by field. */
  lemma AfterLoginState(s: UserSlice.UserState, q: QrLogin)
    ensures UserSlice.ReduceAll(s, LoginActions(q)) ==
      s.(fullname := Some(q.fullName), username := Some(q.userId), baseUrl := Some(q.api),
         userDetails := Some(UserDetailsOf(q)))
  {
    var acts := LoginActions(q);
    var s1 := UserSlice.Reduce(s, acts[0]);
    var s2 := UserSlice.Reduce(s1, acts[1]);
    var s3 := UserSlice.Reduce(s2, acts[2]);
    var s4 := UserSlice.Reduce(s3, acts[3]);
    assert acts[1..][1..] == acts[2..] && acts[2..][1..] == acts[3..] && acts[3..][1..] == [];
    assert UserSlice.ReduceAll(s3, acts[3..]) == s4;
    assert UserSlice.ReduceAll(s2, acts[2..]) == s4;
    assert UserSlice.ReduceAll(s1, acts[1..]) == s4;
  }

  /**
   * The stored `baseUrl`, the `setBaseUrl` payload and `userDetails.api` are
   * all the captured API text unchanged.
   */
  lemma ApiStoredUnchanged(s: UserSlice.UserState, value: string)
    requires ParseQr(value).Some?
    ensures var q := ParseQr(value).value;
      var t := UserSlice.ReduceAll(s, LoginActions(q));
      && UserSlice.SelectBaseUrl(t) == Some(q.api)
      && Get(UserSlice.SelectUserDetails(t), "api") == Some(JStr(q.api))
      && |q.api| <= |value| && value[|value| - |q.api|..] == q.api
  {
    var q := ParseQr(value).value;
    var t := UserSlice.ReduceAll(s, LoginActions(q));
    AfterLoginState(s, q);
    assert UserSlice.SelectUserDetails(t) == Some(UserDetailsOf(q));
    assert "api" in UserDetailsOf(q).fields && UserDetailsOf(q).fields["api"] == JStr(q.api);
    ApiRunsToEnd(value);
  }

  /**
   * After a login, `selectEmployeeCode` as written yields undefined: the
   * login screen stores the code under `employeeCode`, the selector reads
   * `employee_code`.
   */
  lemma EmployeeCodeLostAsWritten(s: UserSlice.UserState, q: QrLogin)
    ensures UserSlice.SelectEmployeeCode(UserSlice.ReduceAll(s, LoginActions(q))).None?
  {
    AfterLoginState(s, q);
  }

  /** The corrected selector yields the scanned employee code after a login. */
  lemma EmployeeCodeAfterLogin(s: UserSlice.UserState, q: QrLogin)
    ensures UserSlice.SelectEmployeeCodeCorrected(UserSlice.ReduceAll(s, LoginActions(q))) == Some(JStr(q.employeeCode))
  {
    AfterLoginState(s, q);
  }
}
