/**
 * The page extractors of `TestSysClient` (tsweb_py/client/client.py) over
 * the parsed page, the test that decides whether an upload failed, and the
 * credential short-circuit of `auto_login`.
 *
 * A page is given as the parser's result: the rows of the table the
 * extractor looks up (`None` when the page has no such table), the options of
 * the `<select>` it looks up (`None` when there is none), or the lines of the
 * page text. The transport that fetches the page is not part of this model.
 */
module Client {
  import opened Wrappers
  import opened Text
  import opened Models
  import opened Scrape
  import Global
  import J = Json

  /**
   * One `<option>` element: `value` is its value attribute (`""` when absent),
   * `text` its stripped text, `disabled` the value of its `disabled`
   * attribute when it has one. The HTML parser gives a bare `disabled`
   * attribute the value `""`.
   */
  datatype SelectOption = SelectOption(value: string, text: string, disabled: Option<string>)

  // ---------------------------------------------------------------------------
  // get_available_contests

  predicate HasContestCells(row: Row) {
    |row| >= 3
  }

  function ContestOf(row: Row): Contest {
    NewContest(Cell(row, 0), Cell(row, 1), Cell(row, 2))
  }

  /** The contests of the contests page; `table` is its first table with `border="1"`. */
  function ContestsOf(table: Option<Table>): seq<Contest> {
    match table
    case None => []
    case Some(rows) => Collect(DropFirst(rows), HasContestCells, ContestOf)
  }

  method GetAvailableContests(table: Option<Table>) returns (contests: seq<Contest>)
    ensures contests == ContestsOf(table)
  {
    contests := [];
    if table.None? {
      return;
    }
    var rows := DropFirst(table.value);
    var i := 0;
    while i < |rows|
      invariant 0 <= i <= |rows|
      invariant contests == Collect(rows[..i], HasContestCells, ContestOf)
    {
      var cols := rows[i];
      CollectStep(rows, i, HasContestCells, ContestOf);
      if |cols| >= 3 {
        var contest := NewContest(cols[0], cols[1], cols[2]);
        contests := contests + [contest];
      }
      i := i + 1;
    }
    assert rows[..i] == rows;
  }

  /**
   * The n-th contest comes from the n-th row after the first that has at
   * least three cells, built from its cells 0, 1 and 2; no page without the
   * table yields a contest.
   */
  lemma {:induction false} ContestsFromLaterRows(table: Option<Table>)
    ensures table.None? ==> ContestsOf(table) == []
    ensures table.Some? ==>
              var body := DropFirst(table.value);
              var ks := KeptIndices(body, HasContestCells);
              |ContestsOf(table)| == |ks|
              && forall n :: 0 <= n < |ks| ==>
                   var row := table.value[ks[n] + 1];
                   |row| >= 3 && ContestsOf(table)[n] == Contest(row[0], row[1], row[2], None)
  {
    if table.Some? {
      var body := DropFirst(table.value);
      CollectIndexed(body, HasContestCells, ContestOf);
      var ks := KeptIndices(body, HasContestCells);
      forall n | 0 <= n < |ks|
        ensures table.value[ks[n] + 1] == body[ks[n]]
      {
      }
    }
  }

  // ---------------------------------------------------------------------------
  // get_problems and get_compilers

  /** `problem_id and not option.get("disabled")`: a value, and no disabled attribute with a value. */
  predicate Selectable(o: SelectOption) {
    o.value != "" && !(o.disabled.Some? && o.disabled.value != "")
  }

  function ProblemOf(o: SelectOption): Problem {
    Problem(o.value, o.text)
  }

  /** The problems of the submit page; `select` is its `<select name="prob">`. */
  function ProblemsOf(select: Option<seq<SelectOption>>): seq<Problem> {
    match select
    case None => []
    case Some(options) => Collect(options, Selectable, ProblemOf)
  }

  method GetProblems(select: Option<seq<SelectOption>>) returns (problems: seq<Problem>)
    ensures problems == ProblemsOf(select)
  {
    problems := [];
    if select.None? {
      return;
    }
    var options := select.value;
    var i := 0;
    while i < |options|
      invariant 0 <= i <= |options|
      invariant problems == Collect(options[..i], Selectable, ProblemOf)
    {
      var option := options[i];
      CollectStep(options, i, Selectable, ProblemOf);
      var problemId := option.value;
      var problemName := option.text;
      if problemId != "" && !(option.disabled.Some? && option.disabled.value != "") {
        problems := problems + [Problem(problemId, problemName)];
      }
      i := i + 1;
    }
    assert options[..i] == options;
  }

  /**
   * A problem is listed exactly when a selectable option carries it (id =
   * value, name = text), and the problems follow the options' order.
   */
  lemma {:induction false} ProblemsAreSelectableOptions(options: seq<SelectOption>, p: Problem)
    ensures p in ProblemsOf(Some(options)) <==>
              exists j :: 0 <= j < |options| && Selectable(options[j])
                && p.problemId == options[j].value && p.problemName == options[j].text
    ensures forall x :: x in ProblemsOf(Some(options)) ==> x.problemId != ""
    ensures |ProblemsOf(Some(options))| == |KeptIndices(options, Selectable)|
    ensures forall n :: 0 <= n < |ProblemsOf(Some(options))| ==>
              ProblemsOf(Some(options))[n] == ProblemOf(options[KeptIndices(options, Selectable)[n]])
  {
    CollectMember(options, Selectable, ProblemOf, p);
    CollectIndexed(options, Selectable, ProblemOf);
    forall x | x in ProblemsOf(Some(options))
      ensures x.problemId != ""
    {
      CollectMember(options, Selectable, ProblemOf, x);
    }
  }

  /** The language of a compiler: the stripped text before the first `:`, or `"Unknown"`. */
  function LanguageOf(name: string): string {
    if ':' in name then Strip(BeforeFirst(name, ':')) else "Unknown"
  }

  /** Without a `:` the language is `"Unknown"`; otherwise it is the stripped text before the first `:`. */
  lemma {:induction false} LanguageOfMeaning(name: string)
    ensures ':' !in name ==> LanguageOf(name) == "Unknown"
    ensures ':' in name ==>
              exists i :: 0 <= i < |name| && name[i] == ':' && ':' !in name[..i] && LanguageOf(name) == Strip(name[..i])
  {
    if ':' in name {
      var prefix := BeforeFirst(name, ':');
      assert |prefix| < |name|;
    }
  }

  function CompilerOf(o: SelectOption): Compiler {
    Compiler(o.value, o.text, LanguageOf(o.text))
  }

  /** The compilers of the submit page; `select` is its `<select name="lang">`. */
  function CompilersOf(select: Option<seq<SelectOption>>): seq<Compiler> {
    match select
    case None => []
    case Some(options) => Collect(options, Selectable, CompilerOf)
  }

  method GetCompilers(select: Option<seq<SelectOption>>) returns (compilers: seq<Compiler>)
    ensures compilers == CompilersOf(select)
  {
    compilers := [];
    if select.None? {
      return;
    }
    var options := select.value;
    var i := 0;
    while i < |options|
      invariant 0 <= i <= |options|
      invariant compilers == Collect(options[..i], Selectable, CompilerOf)
    {
      var option := options[i];
      CollectStep(options, i, Selectable, CompilerOf);
      var compilerId := option.value;
      var fullName := option.text;
      if compilerId != "" && !(option.disabled.Some? && option.disabled.value != "") {
        var lang := "Unknown";
        if ':' in fullName {
          var langPrefix := Strip(BeforeFirst(fullName, ':'));
          lang := langPrefix;
        }
        compilers := compilers + [Compiler(compilerId, fullName, lang)];
      }
      i := i + 1;
    }
    assert options[..i] == options;
  }

  /**
   * The compilers are the selectable options in order; each keeps the
   * option's value as id and its full text as name, and its language is
   * determined by that text alone.
   */
  lemma {:induction false} CompilersFromOptions(options: seq<SelectOption>)
    ensures |CompilersOf(Some(options))| == |KeptIndices(options, Selectable)|
    ensures forall n :: 0 <= n < |CompilersOf(Some(options))| ==>
              var o := options[KeptIndices(options, Selectable)[n]];
              var c := CompilersOf(Some(options))[n];
              Selectable(o) && c.compilerId == o.value && c.compilerName == o.text
              && c.compilerLang == LanguageOf(o.text)
  {
    CollectIndexed(options, Selectable, CompilerOf);
  }

  /** Two display texts that agree up to the first `:` give the same language. */
  lemma {:induction false} LanguageIgnoresVersion(lang: string, rest1: string, rest2: string)
    requires ':' !in lang
    ensures LanguageOf(lang + ":" + rest1) == LanguageOf(lang + ":" + rest2) == Strip(lang)
  {
    var a, b := lang + ":" + rest1, lang + ":" + rest2;
    assert a[|lang|] == ':' && b[|lang|] == ':';
    PrefixBeforeColon(lang, rest1);
    PrefixBeforeColon(lang, rest2);
  }

  lemma {:induction false} PrefixBeforeColon(lang: string, rest: string)
    requires ':' !in lang
    ensures BeforeFirst(lang + ":" + rest, ':') == lang
  {
    var s := lang + ":" + rest;
    var r := BeforeFirst(s, ':');
    assert s[|lang|] == ':';
    assert r == s[..|lang|] == lang;
  }

  // ---------------------------------------------------------------------------
  // get_all_submissions

  /** `cells and cells[0].get_text(strip=True) == "ID"`. */
  predicate IsHeaderRow(row: Row) {
    |row| > 0 && row[0] == "ID"
  }

  /** The first header row of the submissions table. */
  function HeaderIndex(rows: Table): (h: Option<nat>)
    ensures h.Some? ==> h.value < |rows|
  {
    if |rows| == 0 then None
    else if IsHeaderRow(rows[0]) then Some(0)
    else
      match HeaderIndex(rows[1..])
      case None => None
      case Some(h) => Some(h + 1)
  }

  /** `HeaderIndex` finds the first header row, and finds none only when there is none. */
  lemma {:induction false} HeaderIndexIsFirst(rows: Table)
    ensures HeaderIndex(rows).None? <==> forall j :: 0 <= j < |rows| ==> !IsHeaderRow(rows[j])
    ensures HeaderIndex(rows).Some? ==>
              var h := HeaderIndex(rows).value;
              IsHeaderRow(rows[h]) && forall j :: 0 <= j < h ==> !IsHeaderRow(rows[j])
  {
    if |rows| > 0 && !IsHeaderRow(rows[0]) {
      var rest := rows[1..];
      HeaderIndexIsFirst(rest);
      assert forall j :: 1 <= j < |rows| ==> rest[j - 1] == rows[j];
    }
  }

  /** A header row after rows that are not headers is the one found. */
  lemma {:induction false} HeaderIndexAt(rows: Table, i: nat)
    requires i < |rows| && IsHeaderRow(rows[i]) && forall j :: 0 <= j < i ==> !IsHeaderRow(rows[j])
    ensures HeaderIndex(rows) == Some(i)
  {
    HeaderIndexIsFirst(rows);
  }

  predicate HasSubmissionCells(row: Row) {
    |row| >= 6
  }

  /** Columns 0, 1, 3, 4 and 5 of the server's table; column 2 is not read. */
  function SubmissionOf(row: Row): Submission {
    Submission(id := Cell(row, 0), problem := Cell(row, 1), compiler := Cell(row, 4),
               result := Cell(row, 5), time := Cell(row, 3))
  }

  /** `row` has the six cells a submission is read from, and `s` is read from them. */
  predicate ReadsAs(row: Row, s: Submission) {
    |row| >= 6
    && s == Submission(id := row[0], problem := row[1], compiler := row[4], result := row[5], time := row[3])
  }

  /** The submissions of the all-submissions page, from its first table with `border="1"`. */
  function SubmissionsOf(table: Option<Table>): seq<Submission> {
    match table
    case None => []
    case Some(rows) =>
      match HeaderIndex(rows)
      case None => []
      case Some(h) => Collect(rows[h + 1..], HasSubmissionCells, SubmissionOf)
  }

  method GetAllSubmissions(table: Option<Table>) returns (submissions: seq<Submission>)
    ensures submissions == SubmissionsOf(table)
  {
    submissions := [];
    if table.None? {
      return;
    }
    var rows := table.value;
    var headerFound := false;
    ghost var h: nat := 0;
    var i := 0;
    while i < |rows|
      invariant 0 <= i <= |rows|
      invariant !headerFound ==> submissions == [] && forall j :: 0 <= j < i ==> !IsHeaderRow(rows[j])
      invariant headerFound ==>
                  HeaderIndex(rows) == Some(h) && h < i
                  && submissions == Collect(rows[h + 1..][..i - h - 1], HasSubmissionCells, SubmissionOf)
    {
      var row := rows[i];
      if !headerFound {
        if IsHeaderRow(row) {
          HeaderIndexAt(rows, i);
          headerFound := true;
          h := i;
        }
        i := i + 1;
        continue;
      }
      RowAfterHeader(rows, h, i);
      var cols := row;
      if |cols| >= 6 {
        var submission := Submission(id := cols[0], problem := cols[1], compiler := cols[4],
                                     result := cols[5], time := cols[3]);
        submissions := submissions + [submission];
      }
      i := i + 1;
    }
    if headerFound {
      assert rows[h + 1..][..i - h - 1] == rows[h + 1..];
    } else {
      HeaderIndexIsFirst(rows);
    }
  }

  /** The rows after the header read so far grow by row `i`, which is kept when it has six cells. */
  lemma {:induction false} RowAfterHeader(rows: Table, h: nat, i: nat)
    requires h < i < |rows|
    ensures Collect(rows[h + 1..][..i - h], HasSubmissionCells, SubmissionOf)
            == Collect(rows[h + 1..][..i - h - 1], HasSubmissionCells, SubmissionOf)
               + (if |rows[i]| >= 6
                  then [Submission(id := rows[i][0], problem := rows[i][1], compiler := rows[i][4],
                                   result := rows[i][5], time := rows[i][3])]
                  else [])
  {
    CollectStep(rows[h + 1..], i - h - 1, HasSubmissionCells, SubmissionOf);
  }

  /**
   * Everything up to and including the first row `h` whose first cell is
   * `ID` is discarded, whatever its width. After it, the n-th submission is the n-th row with at least six
   * cells, read as id = cell 0, problem = cell 1, time = cell 3,
   * compiler = cell 4, result = cell 5.
   */
  lemma {:induction false} SubmissionsAfterHeader(rows: Table, h: nat)
    requires h < |rows| && IsHeaderRow(rows[h]) && forall j :: 0 <= j < h ==> !IsHeaderRow(rows[j])
    ensures var ks := KeptIndices(rows[h + 1..], HasSubmissionCells);
            |SubmissionsOf(Some(rows))| == |ks|
            && forall n :: 0 <= n < |ks| ==>
                 ReadsAs(rows[h + 1 + ks[n]], SubmissionsOf(Some(rows))[n])
  {
    HeaderIndexAt(rows, h);
    SubmissionsAfterFoundHeader(rows, h);
    SubmissionsOfRows(rows, h + 1);
  }

  lemma {:induction false} SubmissionsAfterFoundHeader(rows: Table, h: nat)
    requires HeaderIndex(rows) == Some(h)
    ensures SubmissionsOf(Some(rows)) == Collect(rows[h + 1..], HasSubmissionCells, SubmissionOf)
  {
  }

  /** Without a header row nothing is returned, however wide the rows. */
  lemma {:induction false} NoHeaderNoSubmissions(rows: Table)
    requires forall j :: 0 <= j < |rows| ==> !IsHeaderRow(rows[j])
    ensures SubmissionsOf(Some(rows)) == []
  {
    HeaderIndexIsFirst(rows);
  }

  /** The submissions read from the rows from `start` on, position by position. */
  lemma {:induction false} SubmissionsOfRows(rows: Table, start: nat)
    requires start <= |rows|
    ensures var ks := KeptIndices(rows[start..], HasSubmissionCells);
            |Collect(rows[start..], HasSubmissionCells, SubmissionOf)| == |ks|
            && forall n :: 0 <= n < |ks| ==>
                 ReadsAs(rows[start + ks[n]], Collect(rows[start..], HasSubmissionCells, SubmissionOf)[n])
  {
    CollectIndexedFrom(rows, start, HasSubmissionCells, SubmissionOf);
  }

  /** Rows before the header never contribute, even when they are wide enough. */
  lemma {:induction false} RowsBeforeHeaderIgnored(before: Table, header: Row, after: Table)
    requires forall j :: 0 <= j < |before| ==> !IsHeaderRow(before[j])
    requires IsHeaderRow(header)
    ensures SubmissionsOf(Some(before + [header] + after)) == SubmissionsOf(Some([header] + after))
  {
    var rows := before + [header] + after;
    assert rows[|before|] == header;
    HeaderIndexAt(rows, |before|);
    assert rows[|before| + 1..] == after;
    assert ([header] + after)[1..] == after;
  }

  // ---------------------------------------------------------------------------
  // get_feedback

  predicate HasTestCells(row: Row) {
    |row| >= 5
  }

  /** `Test(...)` with the source's fallbacks to `""` for missing cells 2 to 4. */
  function TestOf(row: Row): Test {
    Test(testId := Cell(row, 0), result := Cell(row, 1),
         time := if |row| > 2 then row[2] else "",
         memory := if |row| > 3 then row[3] else "",
         comment := if |row| > 4 then row[4] else "")
  }

  /** The tests of a feedback page; `table` is its first table of any kind. */
  function FeedbackOf(table: Option<Table>): seq<Test> {
    match table
    case None => []
    case Some(rows) => Collect(DropFirst(rows), HasTestCells, TestOf)
  }

  method GetFeedback(table: Option<Table>) returns (tests: seq<Test>)
    ensures tests == FeedbackOf(table)
  {
    tests := [];
    if table.None? {
      return;
    }
    var rows := DropFirst(table.value);
    var i := 0;
    while i < |rows|
      invariant 0 <= i <= |rows|
      invariant tests == Collect(rows[..i], HasTestCells, TestOf)
    {
      var cols := rows[i];
      CollectStep(rows, i, HasTestCells, TestOf);
      if |cols| >= 5 {
        var test := Test(testId := cols[0], result := cols[1],
                         time := if |cols| > 2 then cols[2] else "",
                         memory := if |cols| > 3 then cols[3] else "",
                         comment := if |cols| > 4 then cols[4] else "");
        tests := tests + [test];
      }
      i := i + 1;
    }
    assert rows[..i] == rows;
  }

  /**
   * Row 0 is always dropped, so a header-only table gives no tests; every
   * test is read from cells 0 to 4 of a row that has them, so the fallbacks
   * to `""` never apply; and the tests keep the rows' order.
   */
  lemma {:induction false} FeedbackUsesFiveCells(rows: Table)
    ensures |rows| <= 1 ==> FeedbackOf(Some(rows)) == []
    ensures var ks := KeptIndices(DropFirst(rows), HasTestCells);
            |FeedbackOf(Some(rows))| == |ks|
            && forall n :: 0 <= n < |ks| ==>
                 var row := rows[ks[n] + 1];
                 |row| >= 5 && FeedbackOf(Some(rows))[n] == Test(row[0], row[1], row[2], row[3], row[4])
  {
    var body := DropFirst(rows);
    CollectIndexed(body, HasTestCells, TestOf);
    var ks := KeptIndices(body, HasTestCells);
    forall n | 0 <= n < |ks|
      ensures rows[ks[n] + 1] == body[ks[n]]
    {
    }
  }

  // ---------------------------------------------------------------------------
  // get_user_info

  const NameKey := "name"
  const ContestKey := "contest"

  /** A stripped line starting with `You are`, but not with `You are currently`. */
  predicate IsNameLine(raw: string) {
    var line := Strip(raw);
    StartsWith(line, "You are") && !StartsWith(line, "You are currently")
  }

  predicate IsContestLine(raw: string) {
    StartsWith(Strip(raw), "Assigned contest:")
  }

  /** Whether a line sets `key` of the user info. */
  predicate Sets(key: string, raw: string) {
    if key == NameKey then IsNameLine(raw)
    else if key == ContestKey then IsContestLine(raw)
    else false
  }

  /** The value a line gives to `key`. */
  function ValueFor(key: string, raw: string): string {
    if key == NameKey then RemoveAll(Strip(raw), "You are ")
    else RemoveAll(Strip(raw), "Assigned contest: ")
  }

  /** One iteration of the loop over the page's lines. */
  function ApplyLine(info: map<string, string>, raw: string): map<string, string> {
    var named := if IsNameLine(raw) then info[NameKey := ValueFor(NameKey, raw)] else info;
    if IsContestLine(raw) then named[ContestKey := ValueFor(ContestKey, raw)] else named
  }

  /** The user info built from the page's lines, in order. */
  function UserInfoOf(lines: seq<string>): map<string, string> {
    if |lines| == 0 then map[]
    else ApplyLine(UserInfoOf(lines[..|lines| - 1]), lines[|lines| - 1])
  }

  method GetUserInfo(lines: seq<string>) returns (userInfo: map<string, string>)
    ensures userInfo == UserInfoOf(lines)
  {
    userInfo := map[];
    var i := 0;
    while i < |lines|
      invariant 0 <= i <= |lines|
      invariant userInfo == UserInfoOf(lines[..i])
    {
      var line := Strip(lines[i]);
      if StartsWith(line, "You are") && !StartsWith(line, "You are currently") {
        userInfo := userInfo[NameKey := RemoveAll(line, "You are ")];
      }
      if StartsWith(line, "Assigned contest:") {
        userInfo := userInfo[ContestKey := RemoveAll(line, "Assigned contest: ")];
      }
      assert lines[..i + 1][..i] == lines[..i];
      i := i + 1;
    }
    assert lines[..i] == lines;
  }

  /** One line sets the keys it qualifies for and leaves every other entry alone. */
  lemma {:induction false} ApplyLineEffect(info: map<string, string>, raw: string, key: string)
    ensures ApplyLine(info, raw).Keys <= info.Keys + {NameKey, ContestKey}
    ensures key in ApplyLine(info, raw) <==> key in info || Sets(key, raw)
    ensures Sets(key, raw) ==> ApplyLine(info, raw)[key] == ValueFor(key, raw)
    ensures !Sets(key, raw) && key in info ==> ApplyLine(info, raw)[key] == info[key]
  {
    assert NameKey != ContestKey;
  }

  /** Only `name` and `contest` are ever set. */
  lemma {:induction false} OnlyTwoKeys(lines: seq<string>)
    ensures UserInfoOf(lines).Keys <= {NameKey, ContestKey}
  {
    if |lines| > 0 {
      var init := lines[..|lines| - 1];
      OnlyTwoKeys(init);
      ApplyLineEffect(UserInfoOf(init), lines[|lines| - 1], NameKey);
    }
  }

  /** Whether a line present decides only on the line itself. */
  lemma {:induction false} KeyStep(info: map<string, string>, raw: string, key: string)
    ensures key in ApplyLine(info, raw) <==> key in info || Sets(key, raw)
  {
  }

  lemma {:induction false} KeyPresentPrefix(lines: seq<string>, key: string, n: nat)
    requires n <= |lines|
    ensures key in UserInfoOf(lines[..n]) <==> exists j :: 0 <= j < n && Sets(key, lines[j])
  {
    if n > 0 {
      KeyPresentPrefix(lines, key, n - 1);
      assert lines[..n][..n - 1] == lines[..n - 1];
      KeyStep(UserInfoOf(lines[..n - 1]), lines[n - 1], key);
    }
  }

  /** A key is present exactly when some line sets it. */
  lemma {:induction false} KeyPresentIffSet(lines: seq<string>, key: string)
    ensures key in UserInfoOf(lines) <==> exists j :: 0 <= j < |lines| && Sets(key, lines[j])
  {
    KeyPresentPrefix(lines, key, |lines|);
    assert lines[..|lines|] == lines;
  }

  /** A key set by some line holds the value given by the LAST line that sets it. */
  lemma {:induction false} LastLineWins(lines: seq<string>, key: string, j: nat)
    requires j < |lines| && Sets(key, lines[j])
    requires forall k :: j < k < |lines| ==> !Sets(key, lines[k])
    ensures key in UserInfoOf(lines) && UserInfoOf(lines)[key] == ValueFor(key, lines[j])
  {
    var init := lines[..|lines| - 1];
    var last := lines[|lines| - 1];
    ApplyLineEffect(UserInfoOf(init), last, key);
    if j < |lines| - 1 {
      forall k | j < k < |init|
        ensures !Sets(key, init[k])
      {
        assert init[k] == lines[k];
      }
      LastLineWins(init, key, j);
    }
  }

  lemma {:induction false} GreetingIsStripped(team: string)
    requires |team| > 0 && !IsSpace(team[|team| - 1])
    ensures Strip("You are " + team) == "You are " + team
  {
    var line := "You are " + team;
    assert !IsSpace(line[0]) && line[|line| - 1] == team[|team| - 1];
    StripMeaning(line);
  }

  lemma {:induction false} GreetingIsNotNotice(team: string)
    requires !StartsWith(team, "currently")
    ensures StartsWith("You are " + team, "You are") && !StartsWith("You are " + team, "You are currently")
  {
    var line := "You are " + team;
    assert line[..|"You are"|] == "You are";
    if StartsWith(line, "You are currently") {
      NoticeAfterGreeting(team);
      assert false;
    }
  }

  lemma {:induction false} NoticeAfterGreeting(team: string)
    requires StartsWith("You are " + team, "You are currently")
    ensures StartsWith(team, "currently")
  {
    var line := "You are " + team;
    assert team[..9] == line[8..17];
  }

  lemma {:induction false} GreetingRemoved(team: string)
    requires !Contains(team, "You are ")
    ensures RemoveAll("You are " + team, "You are ") == team
  {
    var line := "You are " + team;
    assert line[..|"You are "|] == "You are ";
    assert line[|"You are "|..] == team;
    RemoveAllAbsent(team, "You are ");
  }

  /** `You are <team>` yields the team's name when the name is a plain one. */
  lemma {:induction false} NameOfGreeting(team: string)
    requires |team| > 0 && !IsSpace(team[|team| - 1])
    requires !Contains(team, "You are ") && !StartsWith(team, "currently")
    ensures IsNameLine("You are " + team) && ValueFor(NameKey, "You are " + team) == team
  {
    GreetingIsStripped(team);
    GreetingIsNotNotice(team);
    GreetingRemoved(team);
  }

  /**
   * A line that starts with the not-logged-in notice never sets the name,
   * whatever follows the notice on that line.
   */
  lemma {:induction false} NoticeNeverSetsName(rest: string)
    ensures !IsNameLine(NotLoggedInNotice + rest)
  {
    var line := NotLoggedInNotice + rest;
    var n := |NotLoggedInNotice|;
    assert line[..n] == NotLoggedInNotice;
    assert !IsSpace(line[0]) && !IsSpace(line[n - 1]);
    assert TrimStart(line) == line;
    var r := Strip(line);
    TrimEndMeaning(line);
    assert |r| >= n;
    assert r[..17] == line[..17] == "You are currently";
  }

  // ---------------------------------------------------------------------------
  // submit and auto_login

  const ErrorTitle := "<TITLE>Error</TITLE>"

  /**
   * What `submit` returns, given the decoded response to the upload (`None`
   * when opening the file or the request raised). The `<TITLE>Error</TITLE>`
   * test adds nothing: the case-insensitive test for `error` already covers it.
   */
  function UploadSucceeded(response: Option<string>): bool {
    match response
    case None => false
    case Some(html) => !(Contains(html, ErrorTitle) || Contains(Lower(html), "error"))
  }

  /** An upload counts as failed exactly when it raised or its response mentions `error` in any case. */
  lemma {:induction false} UploadSucceededMeaning(response: Option<string>)
    ensures response.None? ==> !UploadSucceeded(response)
    ensures response.Some? ==> (UploadSucceeded(response) <==> !Contains(Lower(response.value), "error"))
  {
    if response.Some? && Contains(response.value, ErrorTitle) {
      TitleErrorIsError(response.value);
    }
  }

  lemma {:induction false} TitleErrorIsError(html: string)
    requires Contains(html, ErrorTitle)
    ensures Contains(Lower(html), "error")
    decreases |html|
  {
    if StartsWith(html, ErrorTitle) {
      var low := Lower(html);
      forall k | 7 <= k < 12
        ensures low[k] == "error"[k - 7]
      {
        assert html[k] == html[..|ErrorTitle|][k] == ErrorTitle[k];
      }
      assert low[7..12] == "error";
      ContainsAt(low, "error", 7);
    } else {
      TitleErrorIsError(html[1..]);
      assert Lower(html)[1..] == Lower(html[1..]);
    }
  }

  const NotLoggedInNotice := "You are currently not logged in"

  /** The three ways `auto_login` can go. */
  datatype AutoLoginPath =
    | NoCredentials       // returns False at once; nothing is sent
    | SessionReused       // the saved session still shows a logged-in page
    | LoggedInAgain(ok: bool)  // the result of `login` with the saved credentials

  /**
   * `auto_login`, given the saved config, the main page fetched with the
   * saved session (`None` when that request raised) and what `login` would
   * return.
   */
  function AutoLogin(config: Global.GlobalConfig, mainPage: Option<string>, loginOk: bool): (path: AutoLoginPath)
    ensures path.NoCredentials? <==> config.user == "" || config.password == ""
    ensures path.SessionReused? <==>
              Global.HasCredentials(config) && mainPage.Some? && !Contains(mainPage.value, NotLoggedInNotice)
    ensures path.LoggedInAgain? <==>
              Global.HasCredentials(config) && (mainPage.None? || Contains(mainPage.value, NotLoggedInNotice))
    ensures path.LoggedInAgain? ==> path.ok == loginOk
  {
    if !Global.HasCredentials(config) then NoCredentials
    else if mainPage.Some? && !Contains(mainPage.value, NotLoggedInNotice) then SessionReused
    else LoggedInAgain(loginOk)
  }

  /** The value `auto_login` returns. */
  predicate LoggedIn(path: AutoLoginPath) {
    path.SessionReused? || (path.LoggedInAgain? && path.ok)
  }

  /** With the global config file missing or unreadable, `auto_login` gives up without a request. */
  lemma {:induction false} NoConfigFileNoLogin(body: Option<J.FileBody>, mainPage: Option<string>, loginOk: bool)
    requires body.None? || body == Some(J.Unreadable)
    ensures Global.Load(body).Loaded?
    ensures AutoLogin(Global.Load(body).config, mainPage, loginOk) == NoCredentials
  {
  }
}
