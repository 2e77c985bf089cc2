/** The one statement the repository assembles at run time, `ListTasks`: its text, the arguments
    bound to its placeholders, and what MySQL makes of the two. */
module SqlQuery {
  import opened Model
  import opened Paging

  datatype Arg = IntArg(n: int) | TextArg(s: string)

  /** `SELECT id, status, ..., created_at FROM tasks WHERE team_id = ?`, up to the WHERE in words. */
  const HEAD := [
    "SELECT", "id,", "status,", "title,", "description,", "creator_id,", "assignee_id,", "team_id,", "created_at",
    "FROM", "tasks", "WHERE"
  ]
  const SELECT_TASKS := Spaced(HEAD) + " team_id = ?"
  const AND_STATUS := " AND status = ?"
  const AND_ASSIGNEE := " AND assignee_id = ?"
  const AND_ID_ABOVE := " AND id > ?"
  const ORDER_AND_LIMIT := " ORDER BY id ASC LIMIT ?"

  function Spaced(ws: seq<string>): string
    requires ws != []
  {
    if |ws| == 1 then ws[0] else ws[0] + " " + Spaced(ws[1..])
  }

  // ---------------------------------------------------------------------------
  // The engine: text to words, words to conditions, conditions and arguments to rows

  /** A text cut at its spaces. */
  function Words(text: string): (ws: seq<string>)
    ensures ws != []
  {
    if text == "" then [""] else InFront(text[0], Words(text[1..]))
  }

  /** A character before the first word: a space begins a new one. */
  function InFront(c: char, ws: seq<string>): (r: seq<string>)
    requires ws != []
    ensures r != []
  {
    if c == ' ' then [""] + ws else [[c] + ws[0]] + ws[1..]
  }

  /** The number of placeholders. */
  function Marks(text: string): nat {
    if text == "" then 0 else (if text[0] == '?' then 1 else 0) + Marks(text[1..])
  }

  datatype Column = Id | Status | Title | Description | CreatorId | AssigneeId | TeamId | CreatedAt

  function ParseColumn(word: string): Option<Column> {
    if word == "id" then Some(Id)
    else if word == "status" then Some(Status)
    else if word == "title" then Some(Title)
    else if word == "description" then Some(Description)
    else if word == "creator_id" then Some(CreatorId)
    else if word == "assignee_id" then Some(AssigneeId)
    else if word == "team_id" then Some(TeamId)
    else if word == "created_at" then Some(CreatedAt)
    else None
  }

  datatype Operator = Equal | Above

  function ParseOperator(word: string): Option<Operator> {
    if word == "=" then Some(Equal) else if word == ">" then Some(Above) else None
  }

  datatype Condition = Condition(column: Column, operator: Operator)

  const END := ["ORDER", "BY", "id", "ASC", "LIMIT", "?"]

  /** A column, an operator and a placeholder, and what follows. */
  function ParseConditions(ws: seq<string>): Option<seq<Condition>>
    decreases |ws|
  {
    if |ws| < 3 || ws[2] != "?" then None
    else
      match (ParseColumn(ws[0]), ParseOperator(ws[1]), ParseRest(ws[3..]))
      case (Some(column), Some(operator), Some(rest)) => Some([Condition(column, operator)] + rest)
      case _ => None
  }

  /** The end of the statement, or AND and more conditions. */
  function ParseRest(ws: seq<string>): Option<seq<Condition>>
    decreases |ws|
  {
    if ws == END then Some([])
    else if ws != [] && ws[0] == "AND" then ParseConditions(ws[1..])
    else None
  }

  /** What to give of each row, and of which rows. */
  datatype Statement = Statement(columns: seq<Column>, conditions: seq<Condition>)

  const FROM_TASKS := ["FROM", "tasks", "WHERE"]

  /** The columns asked for, a comma after each but the last, and what follows. */
  function ParseColumns(ws: seq<string>): Option<Statement>
    decreases |ws|
  {
    if ws == [] then None
    else if ws[0] != "" && ws[0][|ws[0]| - 1] == ',' then
      match (ParseColumn(ws[0][..|ws[0]| - 1]), ParseColumns(ws[1..]))
      case (Some(column), Some(rest)) => Some(Statement([column] + rest.columns, rest.conditions))
      case _ => None
    else if FROM_TASKS <= ws[1..] then
      match (ParseColumn(ws[0]), ParseConditions(ws[4..]))
      case (Some(column), Some(conditions)) => Some(Statement([column], conditions))
      case _ => None
    else None
  }

  function Parse(text: string): Option<Statement> {
    var ws := Words(text);
    if ws[0] == "SELECT" then ParseColumns(ws[1..]) else None
  }

  function ValueOf(t: Task, column: Column): Arg {
    match column
    case Id => IntArg(t.id)
    case Status => TextArg(t.status)
    case Title => TextArg(t.title)
    case Description => TextArg(t.description)
    case CreatorId => IntArg(t.creatorId)
    case AssigneeId => IntArg(t.assigneeId)
    case TeamId => IntArg(t.teamId)
    case CreatedAt => IntArg(t.createdAt)
  }

  predicate Passes(c: Condition, a: Arg, t: Task) {
    match c.operator
    case Equal => ValueOf(t, c.column) == a
    case Above => ValueOf(t, c.column).IntArg? && a.IntArg? && ValueOf(t, c.column).n > a.n
  }

  /** The i-th condition is tested with the i-th argument. */
  predicate PassesAll(cs: seq<Condition>, args: seq<Arg>, t: Task)
    requires |cs| <= |args|
  {
    forall i :: 0 <= i < |cs| ==> Passes(cs[i], args[i], t)
  }

  function Where(rows: seq<Task>, cs: seq<Condition>, args: seq<Arg>): seq<Task>
    requires |cs| <= |args|
  {
    if rows == [] then []
    else (if PassesAll(cs, args, rows[0]) then [rows[0]] else []) + Where(rows[1..], cs, args)
  }

  /** The columns asked for of one row, in the order they are asked for. */
  function Project(columns: seq<Column>, t: Task): (values: seq<Arg>)
    ensures |values| == |columns| && forall i :: 0 <= i < |columns| ==> values[i] == ValueOf(t, columns[i])
  {
    seq(|columns|, i requires 0 <= i < |columns| => ValueOf(t, columns[i]))
  }

  function ProjectAll(columns: seq<Column>, rows: seq<Task>): (answer: seq<seq<Arg>>)
    ensures |answer| == |rows| && forall i :: 0 <= i < |rows| ==> answer[i] == Project(columns, rows[i])
  {
    seq(|rows|, i requires 0 <= i < |rows| => Project(columns, rows[i]))
  }

  /** MySQL refuses a statement it cannot parse, or one whose placeholders and arguments differ in number. */
  function Execute(text: string, args: seq<Arg>, rows: seq<Task>): Option<seq<seq<Arg>>> {
    match Parse(text)
    case None => None
    case Some(Statement(columns, cs)) =>
      PlaceholdersParsed(text);
      if |args| != Marks(text) || !args[|cs|].IntArg? || args[|cs|].n < 0 then None
      else Some(ProjectAll(columns, Take(Where(rows, cs, args), args[|cs|].n)))
  }

  // ---------------------------------------------------------------------------
  // Scanning

  /** The answer shows these tasks, if its values are scanned into the fields in the order of the fields. */
  ghost predicate Scans(answer: seq<seq<Arg>>, tasks: seq<Task>) {
    && |answer| == |tasks|
    && forall i :: 0 <= i < |tasks| ==>
         answer[i] == [IntArg(tasks[i].id), TextArg(tasks[i].status), TextArg(tasks[i].title),
                       TextArg(tasks[i].description), IntArg(tasks[i].creatorId), IntArg(tasks[i].assigneeId),
                       IntArg(tasks[i].teamId), IntArg(tasks[i].createdAt)]
  }

  // ---------------------------------------------------------------------------
  // Words and placeholders

  lemma {:induction false} WordsSplit(a: string, b: string)
    ensures Words(a + " " + b) == Words(a) + Words(b)
  {
    if a == "" {
      assert ("" + " " + b)[1..] == b;
    } else {
      hide InFront;
      WordsSplit(a[1..], b);
      assert (a + " " + b)[1..] == a[1..] + " " + b && (a + " " + b)[0] == a[0];
      InFrontOfMore(a[0], Words(a[1..]), Words(b));
    }
  }

  lemma InFrontOfMore(c: char, ws: seq<string>, more: seq<string>)
    requires ws != []
    ensures InFront(c, ws + more) == InFront(c, ws) + more
  {}

  lemma {:induction false} OneWord(w: string)
    requires ' ' !in w
    ensures Words(w) == [w]
  {
    if w != "" {
      OneWord(w[1..]);
      assert [w[0]] + w[1..] == w;
    }
  }

  lemma {:induction false} WordsOfSpaced(ws: seq<string>)
    requires ws != [] && forall w :: w in ws ==> ' ' !in w
    ensures Words(Spaced(ws)) == ws
  {
    OneWord(ws[0]);
    if |ws| > 1 {
      WordsOfSpaced(ws[1..]);
      WordsSplit(ws[0], Spaced(ws[1..]));
    }
  }

  function MarksOfAll(ws: seq<string>): nat {
    if ws == [] then 0 else Marks(ws[0]) + MarksOfAll(ws[1..])
  }

  lemma {:induction false} MarksOfWords(text: string)
    ensures Marks(text) == MarksOfAll(Words(text))
  {
    if text != "" {
      var rest := Words(text[1..]);
      MarksOfWords(text[1..]);
      if text[0] == ' ' {
        assert ([""] + rest)[1..] == rest;
      } else {
        var first := [text[0]] + rest[0];
        assert first[1..] == rest[0];
        assert ([first] + rest[1..])[1..] == rest[1..];
      }
    }
  }

  lemma {:induction false} NoMarks(text: string)
    requires '?' !in text
    ensures Marks(text) == 0
  {
    if text != "" {
      NoMarks(text[1..]);
    }
  }

  lemma {:induction false} MarksOfFront(front: seq<string>, ws: seq<string>)
    requires front <= ws && forall w :: w in front ==> '?' !in w
    ensures MarksOfAll(ws) == MarksOfAll(ws[|front|..])
  {
    if front != [] {
      assert ws[0] == front[0] && front[0] in front;
      NoMarks(ws[0]);
      MarksOfFront(front[1..], ws[1..]);
      assert ws[1..][|front| - 1..] == ws[|front|..];
    }
  }

  lemma ColumnHasNoMark(word: string)
    requires ParseColumn(word).Some? || ParseOperator(word).Some? || word == "AND"
    ensures '?' !in word
  {}

  lemma CommaHasNoMark(word: string)
    requires word != "" && word[|word| - 1] == ',' && ParseColumn(word[..|word| - 1]).Some?
    ensures '?' !in word
  {
    ColumnHasNoMark(word[..|word| - 1]);
    assert word == word[..|word| - 1] + [','];
  }

  lemma OneMark()
    ensures Marks("?") == 1
  {
    assert "?"[1..] == "";
  }

  lemma EndHasOneMark()
    ensures MarksOfAll(END) == 1
  {
    MarksOfFront(END[..5], END);
    OneMark();
    assert END[5..] == ["?"] && ["?"][1..] == [];
  }

  lemma MarksOfThree(ws: seq<string>)
    requires |ws| >= 3 && ParseColumn(ws[0]).Some? && ParseOperator(ws[1]).Some? && ws[2] == "?"
    ensures MarksOfAll(ws) == 1 + MarksOfAll(ws[3..])
  {
    hide ParseColumn, ParseOperator, Marks;
    ColumnHasNoMark(ws[0]);
    ColumnHasNoMark(ws[1]);
    MarksOfFront(ws[..2], ws);
    OneMark();
    assert ws[2..][1..] == ws[3..];
  }

  lemma {:induction false} MarksOfConditions(ws: seq<string>)
    requires ParseConditions(ws).Some?
    ensures MarksOfAll(ws) == |ParseConditions(ws).value| + 1
    decreases |ws|
  {
    MarksOfThree(ws);
    MarksOfRest(ws[3..]);
  }

  lemma {:induction false} MarksOfRest(ws: seq<string>)
    requires ParseRest(ws).Some?
    ensures MarksOfAll(ws) == |ParseRest(ws).value| + 1
    decreases |ws|
  {
    if ws == END {
      EndHasOneMark();
    } else {
      MarksOfConditions(ws[1..]);
      NoMarks("AND");
    }
  }

  lemma {:induction false} MarksOfColumns(ws: seq<string>)
    requires ParseColumns(ws).Some?
    ensures MarksOfAll(ws) == |ParseColumns(ws).value.conditions| + 1
    decreases |ws|
  {
    hide ParseColumn, ParseConditions, Marks, MarksOfAll;
    if ws[0] != "" && ws[0][|ws[0]| - 1] == ',' {
      CommaHasNoMark(ws[0]);
      MarksOfFront([ws[0]], ws);
      MarksOfColumns(ws[1..]);
    } else {
      ColumnHasNoMark(ws[0]);
      NoMarksInFrom();
      assert ws[1..][..3] == FROM_TASKS && ws[..4] == [ws[0]] + ws[1..][..3];
      MarksOfFront(ws[..4], ws);
      MarksOfConditions(ws[4..]);
    }
  }

  lemma NoMarksInFrom()
    ensures forall w :: w in FROM_TASKS ==> '?' !in w
  {}

  /** In whatever statement is accepted there is one placeholder for each condition and one for the limit. */
  lemma PlaceholdersParsed(text: string)
    requires Parse(text).Some?
    ensures Marks(text) == |Parse(text).value.conditions| + 1
  {
    hide Words, ParseColumns, Marks, MarksOfAll;
    var ws := Words(text);
    MarksOfWords(text);
    assert '?' !in "SELECT";
    assert ["SELECT"] <= ws;
    MarksOfFront(["SELECT"], ws);
    MarksOfColumns(ws[1..]);
  }

  lemma HeadHasNoSpaces()
    ensures forall w :: w in HEAD ==> ' ' !in w
  {}

  // ---------------------------------------------------------------------------
  // What the caller means

  /** A filter left empty (or an assignee or cursor of 0) matches everything. */
  predicate Matches(t: Task, teamId: int, status: string, assigneeId: int, startFromId: int) {
    && t.teamId == teamId
    && (status == "" || t.status == status)
    && (assigneeId == 0 || t.assigneeId == assigneeId)
    && (startFromId == 0 || t.id > startFromId)
  }

  function Matching(rows: seq<Task>, teamId: int, status: string, assigneeId: int, startFromId: int): seq<Task> {
    if rows == [] then []
    else (if Matches(rows[0], teamId, status, assigneeId, startFromId) then [rows[0]] else [])
         + Matching(rows[1..], teamId, status, assigneeId, startFromId)
  }

  // ---------------------------------------------------------------------------
  // The builder

  function Clause(present: bool, text: string): string {
    if present then text else ""
  }

  function Text(status: string, assigneeId: int, startFromId: int): string {
    SELECT_TASKS + Clause(status != "", AND_STATUS) + Clause(assigneeId != 0, AND_ASSIGNEE)
    + Clause(startFromId != 0, AND_ID_ABOVE) + ORDER_AND_LIMIT
  }

  function Args(teamId: int, status: string, assigneeId: int, startFromId: int, limit: int): seq<Arg> {
    [IntArg(teamId)]
    + (if status != "" then [TextArg(status)] else [])
    + (if assigneeId != 0 then [IntArg(assigneeId)] else [])
    + (if startFromId != 0 then [IntArg(startFromId)] else [])
    + [IntArg(limit)]
  }

  function Conditions(status: string, assigneeId: int, startFromId: int): seq<Condition> {
    [Condition(TeamId, Equal)]
    + (if status != "" then [Condition(Status, Equal)] else [])
    + (if assigneeId != 0 then [Condition(AssigneeId, Equal)] else [])
    + (if startFromId != 0 then [Condition(Id, Above)] else [])
  }

  /** The words of a clause that is appended, after the space it begins with. */
  function ClauseWords(present: bool, column: string, operator: string): seq<string> {
    if present then ["AND", column, operator, "?"] else []
  }

  lemma ThreeWords(a: string, b: string, c: string)
    requires ' ' !in a && ' ' !in b && ' ' !in c
    ensures Words(a + " " + b + " " + c) == [a, b, c]
  {
    hide Words;
    OneWord(a);
    OneWord(b);
    OneWord(c);
    WordsSplit(a, b);
    WordsSplit(a + " " + b, c);
  }

  lemma ClauseIsSpelled(column: string, operator: string)
    ensures " AND " + column + " " + operator + " ?" == " " + "AND" + " " + (column + " " + operator + " " + "?")
  {}

  /** Appending a clause appends its words. */
  lemma AppendClause(sb: string, column: string, operator: string)
    requires ' ' !in column && ' ' !in operator
    ensures Words(sb + (" AND " + column + " " + operator + " ?")) == Words(sb) + ["AND", column, operator, "?"]
  {
    hide Words;
    var three := column + " " + operator + " " + "?";
    ClauseIsSpelled(column, operator);
    OneWord("AND");
    ThreeWords(column, operator, "?");
    AppendTwo(sb, "AND", three);
  }

  lemma ClausesAreSpelled()
    ensures AND_STATUS == " AND " + "status" + " " + "=" + " ?"
    ensures AND_ASSIGNEE == " AND " + "assignee_id" + " " + "=" + " ?"
    ensures AND_ID_ABOVE == " AND " + "id" + " " + ">" + " ?"
  {}

  lemma EndIsSpelled()
    ensures ORDER_AND_LIMIT == " " + ("ORDER" + " " + "BY" + " " + "id") + " " + ("ASC" + " " + "LIMIT" + " " + "?")
    ensures END == ["ORDER", "BY", "id"] + ["ASC", "LIMIT", "?"]
  {}

  lemma AppendEnd(sb: string)
    ensures Words(sb + ORDER_AND_LIMIT) == Words(sb) + END
  {
    hide Words;
    EndIsSpelled();
    ThreeWords("ORDER", "BY", "id");
    ThreeWords("ASC", "LIMIT", "?");
    AppendTwo(sb, "ORDER" + " " + "BY" + " " + "id", "ASC" + " " + "LIMIT" + " " + "?");
  }

  lemma AppendTwo(sb: string, a: string, b: string)
    ensures Words(sb + (" " + a + " " + b)) == Words(sb) + (Words(a) + Words(b))
  {
    hide Words;
    assert sb + (" " + a + " " + b) == sb + " " + a + " " + b;
    WordsSplit(sb, a);
    WordsSplit(sb + " " + a, b);
  }

  lemma SelectWords()
    ensures Words(SELECT_TASKS) == HEAD + ["team_id", "=", "?"]
  {
    hide Words, Spaced;
    HeadHasNoSpaces();
    WordsOfSpaced(HEAD);
    assert " team_id = ?" == " " + ("team_id" + " " + "=" + " " + "?");
    assert SELECT_TASKS == Spaced(HEAD) + " " + ("team_id" + " " + "=" + " " + "?");
    ThreeWords("team_id", "=", "?");
    WordsSplit(Spaced(HEAD), "team_id" + " " + "=" + " " + "?");
  }

  lemma AppendIf(sb: string, present: bool, clause: string, column: string, operator: string)
    requires ' ' !in column && ' ' !in operator
    requires clause == " AND " + column + " " + operator + " ?"
    ensures Words(sb + Clause(present, clause)) == Words(sb) + ClauseWords(present, column, operator)
  {
    hide Words;
    if present {
      AppendClause(sb, column, operator);
    } else {
      assert sb + "" == sb;
    }
  }

  function ConditionWords(status: string, assigneeId: int, startFromId: int): seq<string> {
    ["team_id", "=", "?"] + ClauseWords(status != "", "status", "=") + ClauseWords(assigneeId != 0, "assignee_id", "=")
    + ClauseWords(startFromId != 0, "id", ">") + END
  }

  lemma WordsOfText(status: string, assigneeId: int, startFromId: int)
    ensures Words(Text(status, assigneeId, startFromId)) == HEAD + ConditionWords(status, assigneeId, startFromId)
  {
    hide Words, Clause, ClauseWords, Spaced;
    var a := SELECT_TASKS + Clause(status != "", AND_STATUS);
    var b := a + Clause(assigneeId != 0, AND_ASSIGNEE);
    var c := b + Clause(startFromId != 0, AND_ID_ABOVE);
    SelectWords();
    ClausesAreSpelled();
    AppendIf(SELECT_TASKS, status != "", AND_STATUS, "status", "=");
    AppendIf(a, assigneeId != 0, AND_ASSIGNEE, "assignee_id", "=");
    AppendIf(b, startFromId != 0, AND_ID_ABOVE, "id", ">");
    AppendEnd(c);
    Gather(HEAD, ["team_id", "=", "?"], ClauseWords(status != "", "status", "="),
           ClauseWords(assigneeId != 0, "assignee_id", "="), ClauseWords(startFromId != 0, "id", ">"), END);
  }

  lemma Gather(a: seq<string>, b: seq<string>, c: seq<string>, d: seq<string>, e: seq<string>, f: seq<string>)
    ensures (a + b) + c + d + e + f == a + (b + c + d + e + f)
  {}

  /** A condition in front of a parsed rest. */
  lemma ParseCondition(column: string, operator: string, rest: seq<string>, c: Condition, cs: seq<Condition>)
    requires ParseColumn(column) == Some(c.column) && ParseOperator(operator) == Some(c.operator)
    requires ParseRest(rest) == Some(cs)
    ensures ParseConditions([column, operator, "?"] + rest) == Some([c] + cs)
  {
    hide ParseColumn, ParseOperator, ParseRest;
    var ws := [column, operator, "?"] + rest;
    assert ws[0] == column && ws[1] == operator && ws[2] == "?" && ws[3..] == rest;
  }

  lemma ParseAnd(ws: seq<string>)
    ensures ParseRest(["AND"] + ws) == ParseConditions(ws)
  {
    var rest := ["AND"] + ws;
    assert rest[0] == "AND" && END[0] == "ORDER" && rest[1..] == ws;
  }

  lemma ParseClause(present: bool, column: string, operator: string, rest: seq<string>, c: Condition,
                    cs: seq<Condition>)
    requires ParseColumn(column) == Some(c.column) && ParseOperator(operator) == Some(c.operator)
    requires ParseRest(rest) == Some(cs)
    ensures ParseRest(ClauseWords(present, column, operator) + rest) == Some((if present then [c] else []) + cs)
  {
    hide ParseColumn, ParseOperator, ParseRest, ParseConditions;
    if present {
      ParseCondition(column, operator, rest, c, cs);
      ParseAnd([column, operator, "?"] + rest);
      assert ["AND", column, operator, "?"] + rest == ["AND"] + ([column, operator, "?"] + rest);
    } else {
      assert [] + rest == rest && [] + cs == cs;
    }
  }

  lemma ColumnsAreNamed()
    ensures ParseColumn("id") == Some(Id) && ParseColumn("status") == Some(Status)
    ensures ParseColumn("assignee_id") == Some(AssigneeId) && ParseColumn("team_id") == Some(TeamId)
    ensures ParseOperator("=") == Some(Equal) && ParseOperator(">") == Some(Above)
  {}

  const FIELDS := [Id, Status, Title, Description, CreatorId, AssigneeId, TeamId, CreatedAt]
  const COLUMN_WORDS := HEAD[1..]

  /** A column with its comma in front of a parsed rest. */
  lemma ParseComma(word: string, name: string, column: Column, rest: seq<string>, st: Statement)
    requires word == name + "," && ParseColumn(name) == Some(column) && ParseColumns(rest) == Some(st)
    ensures ParseColumns([word] + rest) == Some(Statement([column] + st.columns, st.conditions))
  {
    hide ParseColumn, ParseConditions;
    var ws := [word] + rest;
    assert ws[0] == word && ws[1..] == rest && word[..|word| - 1] == name && word[|word| - 1] == ',';
  }

  lemma ParseLast(ws: seq<string>, cs: seq<Condition>)
    requires ParseConditions(ws) == Some(cs)
    ensures ParseColumns(["created_at"] + (FROM_TASKS + ws)) == Some(Statement([CreatedAt], cs))
  {
    hide ParseConditions;
    var all := ["created_at"] + (FROM_TASKS + ws);
    assert all[0] == "created_at" && all[1..] == FROM_TASKS + ws && all[4..] == ws;
    assert "created_at"[9] == 't' && |"created_at"| == 10;
  }

  lemma NamesOfColumns()
    ensures ParseColumn("id") == Some(Id) && ParseColumn("status") == Some(Status)
    ensures ParseColumn("title") == Some(Title) && ParseColumn("description") == Some(Description)
    ensures ParseColumn("creator_id") == Some(CreatorId) && ParseColumn("assignee_id") == Some(AssigneeId)
    ensures ParseColumn("team_id") == Some(TeamId) && ParseColumn("created_at") == Some(CreatedAt)
  {}

  lemma ParseHead(ws: seq<string>, cs: seq<Condition>)
    requires ParseConditions(ws) == Some(cs)
    ensures ParseColumns(COLUMN_WORDS + ws) == Some(Statement(FIELDS, cs))
  {
    hide ParseColumn, ParseColumns, ParseConditions;
    NamesOfColumns();
    var last := ["created_at"] + (FROM_TASKS + ws);
    ParseLast(ws, cs);
    ParseComma("team_id,", "team_id", TeamId, last, Statement([CreatedAt], cs));
    var g := ["team_id,"] + last;
    ParseComma("assignee_id,", "assignee_id", AssigneeId, g, Statement([TeamId] + [CreatedAt], cs));
    var f := ["assignee_id,"] + g;
    ParseComma("creator_id,", "creator_id", CreatorId, f, Statement([AssigneeId] + ([TeamId] + [CreatedAt]), cs));
    var e := ["creator_id,"] + f;
    var d := ["description,"] + e;
    var fields := [CreatorId] + ([AssigneeId] + ([TeamId] + [CreatedAt]));
    ParseComma("description,", "description", Description, e, Statement(fields, cs));
    ParseComma("title,", "title", Title, d, Statement([Description] + fields, cs));
    var c := ["title,"] + d;
    ParseComma("status,", "status", Status, c, Statement([Title] + ([Description] + fields), cs));
    var b := ["status,"] + c;
    ParseComma("id,", "id", Id, b, Statement([Status] + ([Title] + ([Description] + fields)), cs));
    assert ["id,"] + b == COLUMN_WORDS + ws;
    assert [Id] + ([Status] + ([Title] + ([Description] + fields))) == FIELDS;
  }

  lemma ParseText(status: string, assigneeId: int, startFromId: int)
    ensures Parse(Text(status, assigneeId, startFromId)) ==
            Some(Statement(FIELDS, Conditions(status, assigneeId, startFromId)))
  {
    hide Words, ParseConditions, ParseColumns, ConditionWords, Text;
    var ws := ConditionWords(status, assigneeId, startFromId);
    WordsOfText(status, assigneeId, startFromId);
    ParseConditionWords(status, assigneeId, startFromId);
    ParseHead(ws, Conditions(status, assigneeId, startFromId));
    assert (HEAD + ws)[1..] == COLUMN_WORDS + ws && (HEAD + ws)[0] == "SELECT";
  }

  lemma ParseConditionWords(status: string, assigneeId: int, startFromId: int)
    ensures ParseConditions(ConditionWords(status, assigneeId, startFromId)) ==
            Some(Conditions(status, assigneeId, startFromId))
  {
    hide ParseConditions, ClauseWords, ParseColumn, ParseOperator, ParseRest;
    var id := ClauseWords(startFromId != 0, "id", ">");
    var assignee := ClauseWords(assigneeId != 0, "assignee_id", "=");
    var state := ClauseWords(status != "", "status", "=");
    var c := (if startFromId != 0 then [Condition(Id, Above)] else []) + [];
    var b := (if assigneeId != 0 then [Condition(AssigneeId, Equal)] else []) + c;
    var a := (if status != "" then [Condition(Status, Equal)] else []) + b;
    ColumnsAreNamed();
    EndIsTheEnd();
    ParseClause(startFromId != 0, "id", ">", END, Condition(Id, Above), []);
    ParseClause(assigneeId != 0, "assignee_id", "=", id + END, Condition(AssigneeId, Equal), c);
    ParseClause(status != "", "status", "=", assignee + (id + END), Condition(Status, Equal), b);
    ParseCondition("team_id", "=", state + (assignee + (id + END)), Condition(TeamId, Equal), a);
    Regroup(["team_id", "=", "?"], state, assignee, id, END);
    assert Conditions(status, assigneeId, startFromId) == [Condition(TeamId, Equal)] + a;
  }

  lemma EndIsTheEnd()
    ensures ParseRest(END) == Some([])
  {}

  lemma Regroup(a: seq<string>, b: seq<string>, c: seq<string>, d: seq<string>, e: seq<string>)
    ensures a + b + c + d + e == a + (b + (c + (d + e)))
  {}

  lemma PassesAllIsMatches(teamId: int, status: string, assigneeId: int, startFromId: int, limit: int, t: Task)
    ensures |Conditions(status, assigneeId, startFromId)| + 1 == |Args(teamId, status, assigneeId, startFromId, limit)|
    ensures PassesAll(Conditions(status, assigneeId, startFromId), Args(teamId, status, assigneeId, startFromId, limit),
            t)
            <==> Matches(t, teamId, status, assigneeId, startFromId)
  {
    var cs := Conditions(status, assigneeId, startFromId);
    var args := Args(teamId, status, assigneeId, startFromId, limit);
    var i := if status != "" then 1 else 0;
    var j := i + if assigneeId != 0 then 1 else 0;
    assert cs[0] == Condition(TeamId, Equal) && args[0] == IntArg(teamId);
    assert status != "" ==> cs[1] == Condition(Status, Equal) && args[1] == TextArg(status);
    assert assigneeId != 0 ==> cs[i + 1] == Condition(AssigneeId, Equal) && args[i + 1] == IntArg(assigneeId);
    assert startFromId != 0 ==> cs[j + 1] == Condition(Id, Above) && args[j + 1] == IntArg(startFromId);
  }

  lemma {:induction false} WhereIsMatching(rows: seq<Task>, teamId: int, status: string, assigneeId: int,
                                           startFromId: int, limit: int)
    ensures |Conditions(status, assigneeId, startFromId)| + 1 == |Args(teamId, status, assigneeId, startFromId, limit)|
    ensures Where(rows, Conditions(status, assigneeId, startFromId),
            Args(teamId, status, assigneeId, startFromId, limit))
            == Matching(rows, teamId, status, assigneeId, startFromId)
  {
    if rows != [] {
      WhereIsMatching(rows[1..], teamId, status, assigneeId, startFromId, limit);
      PassesAllIsMatches(teamId, status, assigneeId, startFromId, limit, rows[0]);
    } else {
      PassesAllIsMatches(teamId, status, assigneeId, startFromId, limit, Task(0, "", "", "", 0, 0, 0, 0));
    }
  }

  lemma FieldsAreScanned(tasks: seq<Task>)
    ensures Scans(ProjectAll(FIELDS, tasks), tasks)
  {
    forall i | 0 <= i < |tasks|
      ensures ProjectAll(FIELDS, tasks)[i] ==
              [IntArg(tasks[i].id), TextArg(tasks[i].status), TextArg(tasks[i].title), TextArg(tasks[i].description),
               IntArg(tasks[i].creatorId), IntArg(tasks[i].assigneeId), IntArg(tasks[i].teamId),
               IntArg(tasks[i].createdAt)]
    {
      assert ProjectAll(FIELDS, tasks)[i] == Project(FIELDS, tasks[i]);
    }
  }

  /** For every combination of filters and every table, the built statement has as many placeholders as
      arguments, MySQL accepts it, and it answers with the first `limit` rows that match, their columns in the
      order in which the fields of a task are scanned. */
  lemma BuiltQueryMeansFilter(rows: seq<Task>, teamId: int, status: string, assigneeId: int, startFromId: int,
                              limit: nat)
    ensures Marks(Text(status, assigneeId, startFromId)) == |Args(teamId, status, assigneeId, startFromId, limit)|
    ensures var answer := Execute(Text(status, assigneeId, startFromId),
                                  Args(teamId, status, assigneeId, startFromId, limit), rows);
            answer.Some? && Scans(answer.value, Take(Matching(rows, teamId, status, assigneeId, startFromId), limit))
  {
    hide Text, Parse, Where, Matching, Scans;
    ParseText(status, assigneeId, startFromId);
    PlaceholdersParsed(Text(status, assigneeId, startFromId));
    WhereIsMatching(rows, teamId, status, assigneeId, startFromId, limit);
    FieldsAreScanned(Take(Matching(rows, teamId, status, assigneeId, startFromId), limit));
    var args := Args(teamId, status, assigneeId, startFromId, limit);
    assert args[|args| - 1] == IntArg(limit);
  }

  /** The statement, with these arguments, answers with the first `limit` rows that match. */
  ghost predicate Answers(sb: string, args: seq<Arg>, rows: seq<Task>, teamId: int, status: string, assigneeId: int,
                          startFromId: int, limit: nat)
  {
    var answer := Execute(sb, args, rows);
    answer.Some? && Scans(answer.value, Take(Matching(rows, teamId, status, assigneeId, startFromId), limit))
  }

  /** The part of `ListTasks` that appends to the statement and to its arguments, clause by clause. */
  method BuildListTasks(teamId: int, status: string, assigneeId: int, startFromId: int, limit: int)
    returns (sb: string, args: seq<Arg>)
    ensures Marks(sb) == |args|
    ensures limit >= 0 ==> forall rows :: Answers(sb, args, rows, teamId, status, assigneeId, startFromId, limit)
  {
    hide Spaced, Answers, Marks;
    sb := SELECT_TASKS;
    args := [IntArg(teamId)];
    if status != "" {
      sb := sb + AND_STATUS;
      args := args + [TextArg(status)];
    }
    assert sb == SELECT_TASKS + Clause(status != "", AND_STATUS);
    if assigneeId != 0 {
      sb := sb + AND_ASSIGNEE;
      args := args + [IntArg(assigneeId)];
    }
    assert sb == SELECT_TASKS + Clause(status != "", AND_STATUS) + Clause(assigneeId != 0, AND_ASSIGNEE);
    if startFromId != 0 {
      sb := sb + AND_ID_ABOVE;
      args := args + [IntArg(startFromId)];
    }
    sb := sb + ORDER_AND_LIMIT;
    args := args + [IntArg(limit)];
    BuiltTextAndArgs(sb, args, teamId, status, assigneeId, startFromId, limit);
  }

  lemma BuiltTextAndArgs(sb: string, args: seq<Arg>, teamId: int, status: string, assigneeId: int, startFromId: int,
                         limit: int)
    requires sb == Text(status, assigneeId, startFromId)
    requires args == Args(teamId, status, assigneeId, startFromId, limit)
    ensures Marks(sb) == |args|
    ensures limit >= 0 ==> forall rows :: Answers(sb, args, rows, teamId, status, assigneeId, startFromId, limit)
  {
    hide Text, Execute, Matching, Scans;
    ParseText(status, assigneeId, startFromId);
    PlaceholdersParsed(sb);
    if limit >= 0 {
      forall rows
        ensures Answers(sb, args, rows, teamId, status, assigneeId, startFromId, limit)
      {
        BuiltQueryMeansFilter(rows, teamId, status, assigneeId, startFromId, limit);
      }
    }
  }

  // ---------------------------------------------------------------------------
  // The matching rows as a table to page through

  lemma {:induction false} MatchingIn(rows: seq<Task>, teamId: int, status: string, assigneeId: int, startFromId: int,
                                      t: Task)
    ensures t in Matching(rows, teamId, status, assigneeId, startFromId)
            <==> t in rows && Matches(t, teamId, status, assigneeId, startFromId)
  {
    if rows != [] {
      MatchingIn(rows[1..], teamId, status, assigneeId, startFromId, t);
    }
  }

  lemma {:induction false} MatchingAscending(rows: seq<Task>, teamId: int, status: string, assigneeId: int,
                                             startFromId: int)
    requires Ascending(rows, TASK_ID)
    ensures Ascending(Matching(rows, teamId, status, assigneeId, startFromId), TASK_ID)
  {
    if rows != [] {
      var rest := Matching(rows[1..], teamId, status, assigneeId, startFromId);
      MatchingAscending(rows[1..], teamId, status, assigneeId, startFromId);
      forall i | 0 <= i < |rest|
        ensures TASK_ID(rows[0]) < TASK_ID(rest[i])
      {
        MatchingIn(rows[1..], teamId, status, assigneeId, startFromId, rest[i]);
        var k :| 0 <= k < |rows[1..]| && rows[1..][k] == rest[i];
        assert rows[k + 1] == rest[i];
      }
    }
  }

  /** The cursor is one more filter: it selects the rows after it among those that match the rest. */
  lemma {:induction false} MatchingAfterCursor(rows: seq<Task>, teamId: int, status: string, assigneeId: int,
                                               startFromId: int)
    requires Positive(rows, TASK_ID)
    ensures Matching(rows, teamId, status, assigneeId, startFromId)
            == After(Matching(rows, teamId, status, assigneeId, 0), TASK_ID, startFromId)
  {
    if rows != [] {
      MatchingAfterCursor(rows[1..], teamId, status, assigneeId, startFromId);
      var all := Matching(rows, teamId, status, assigneeId, 0);
      if Matches(rows[0], teamId, status, assigneeId, 0) {
        assert all[1..] == Matching(rows[1..], teamId, status, assigneeId, 0);
        assert TASK_ID(rows[0]) > 0;
      } else {
        assert all == Matching(rows[1..], teamId, status, assigneeId, 0);
      }
    }
  }
}
