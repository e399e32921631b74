/** Profiles and their cache: the generated upsert statement with its positional
    arguments, and the read-through cache in front of the two user tables. Calls are
    taken one at a time, under a clock that does not go back. */
module UserServices {
  import opened Basics
  import opened Decimal
  import opened RedisStore

  // ------------------------------------------------------------- the tables

  datatype User = User(uuid: string, username: string, email: string, createdAt: string)

  /** A row of user_profiles; a missing value is SQL's NULL. */
  datatype Profile = Profile(nickname: Option<string>, avatarUrl: Option<string>, bio: Option<string>, gender: int,
                             birthday: Option<string>, location: Option<string>)

  datatype ProfileUpdate = ProfileUpdate(nickname: Option<string>, avatarUrl: Option<string>, bio: Option<string>,
                                         gender: Option<int>)

  type Profiles = map<int, Profile>

  /** The value bound to a placeholder. */
  datatype Argument = Str(text: string) | Num(number: int)

  // ----------------------------------------- what an update of a profile means

  function Or<T>(value: Option<T>, fallback: T): T {
    if value.Some? then value.value else fallback
  }

  function OrKept<T>(value: Option<T>, kept: Option<T>): Option<T> {
    if value.Some? then value else kept
  }

  /** An existing row takes the present fields and keeps everything else. */
  function Overwritten(row: Profile, update: ProfileUpdate): Profile {
    row.(nickname := OrKept(update.nickname, row.nickname),
         avatarUrl := OrKept(update.avatarUrl, row.avatarUrl),
         bio := OrKept(update.bio, row.bio),
         gender := Or(update.gender, row.gender))
  }

  /** A new row has the present fields and the defaults. */
  function Created(update: ProfileUpdate): Profile {
    Profile(Some(Or(update.nickname, "")), Some(Or(update.avatarUrl, "")), Some(Or(update.bio, "")),
            Or(update.gender, 0), None, None)
  }

  predicate IsEmpty(update: ProfileUpdate) {
    update.nickname.None? && update.avatarUrl.None? && update.bio.None? && update.gender.None?
  }

  function Upserted(profiles: Profiles, id: int, update: ProfileUpdate): Profiles {
    if IsEmpty(update) then profiles
    else profiles[id := if id in profiles then Overwritten(profiles[id], update) else Created(update)]
  }

  // ---------------------------------- what the database does with a statement

  const OPENING := "INSERT INTO " + "user_profiles ("
  const NAMED := FiveNames("user_id", "nickname", "avatar_url", "bio", "gender")
  const INTO := OPENING + NAMED
  const VALUES := "VALUES (" + "?" + ", " + "?" + ", " + "?" + ", " + "?" + ", " + "?" + ") "
  const DUPLICATE := "ON DUPLICATE KEY UPDATE "

  function FiveNames(a: string, b: string, c: string, d: string, e: string): string {
    a + ", " + (b + ", " + (c + ", " + (d + ", " + (e + ") "))))
  }

  /** The part of the statement before the assignments. */
  function Insert(): string { INTO + VALUES + DUPLICATE }

  /** Where a name in a list of columns ends. */
  function EndOfName(text: string): (n: nat)
    ensures n <= |text| && forall k :: 0 <= k < n ==> text[k] != ',' && text[k] != ')'
    ensures n < |text| ==> text[n] == ',' || text[n] == ')'
  {
    if text == [] || text[0] == ',' || text[0] == ')' then 0 else 1 + EndOfName(text[1..])
  }

  /** A list of columns up to its closing parenthesis, and what follows. */
  function ParseColumns(text: string): Option<(seq<string>, string)>
    decreases |text|
  {
    var n := EndOfName(text);
    if n + 2 > |text| then None
    else if text[n..n + 2] == ") " then Some(([text[..n]], text[n + 2..]))
    else if text[n..n + 2] == ", " then
      var more := ParseColumns(text[n + 2..]);
      if more.None? then None else Some(([text[..n]] + more.value.0, more.value.1))
    else None
  }

  /** A list of `name = ?` separated by a comma and a space. */
  function ParseAssignments(text: string): Option<seq<string>>
    decreases |text|
  {
    var space := IndexOf(text, ' ', 0);
    if space.None? || |text| < space.value + 4 || text[space.value..space.value + 4] != " = ?" then None
    else
      var rest := text[space.value + 4..];
      if rest == [] then Some([text[..space.value]])
      else if |rest| < 2 || rest[..2] != ", " then None
      else
        var more := ParseAssignments(rest[2..]);
        if more.None? then None else Some([text[..space.value]] + more.value)
  }

  function Placeholders(text: string): nat {
    if text == [] then 0 else if text[0] == '?' then 1 + Placeholders(text[1..]) else Placeholders(text[1..])
  }

  /** Assign one column; a column that is not there or an argument of the wrong kind is refused. */
  function SetColumn(row: Profile, name: string, value: Argument): Option<Profile> {
    if name == "nickname" && value.Str? then Some(row.(nickname := Some(value.text)))
    else if name == "avatar_url" && value.Str? then Some(row.(avatarUrl := Some(value.text)))
    else if name == "bio" && value.Str? then Some(row.(bio := Some(value.text)))
    else if name == "gender" && value.Num? then Some(row.(gender := value.number))
    else None
  }

  /** Assign columns one after the other, each from the argument at its place. */
  function SetColumns(row: Profile, names: seq<string>, values: seq<Argument>): Option<Profile>
    requires |names| == |values|
    decreases |names|
  {
    if names == [] then Some(row)
    else
      var next := SetColumn(row, names[0], values[0]);
      if next.None? then None else SetColumns(next.value, names[1..], values[1..])
  }

  const NEW_ROW: Profile := Profile(None, None, None, 0, None, None)

  /** The statement on the table: the first arguments are the row to insert, its key first, the
      columns not listed keeping their defaults; on an existing key the assignments apply
      instead, with the arguments that follow. */
  function Upsert(profiles: Profiles, columns: seq<string>, names: seq<string>, arguments: seq<Argument>):
    Option<Profiles>
    requires |arguments| == |columns| + |names|
  {
    if columns == [] || columns[0] != "user_id" || arguments[0].Str? then None
    else
      var id := arguments[0].number;
      var inserted := SetColumns(NEW_ROW, columns[1..], arguments[1..|columns|]);
      if inserted.None? then None
      else if id !in profiles then Some(profiles[id := inserted.value])
      else
        var row := SetColumns(profiles[id], names, arguments[|columns|..]);
        if row.None? then None else Some(profiles[id := row.value])
  }

  /** Exactly the numbers 1 to n are bound. */
  predicate AllBound(bound: map<int, Argument>, n: nat) {
    |bound| == n && forall k :: 1 <= k <= n ==> k in bound
  }

  function InOrder(bound: map<int, Argument>, n: nat): seq<Argument>
    requires AllBound(bound, n)
  {
    seq(n, i requires 0 <= i < n => bound[i + 1])
  }

  /** Execute a prepared statement: its placeholders are numbered from 1 in the order of the
      text, and exactly these must be bound. */
  function Execute(profiles: Profiles, sql: string, bound: map<int, Argument>): Option<Profiles> {
    var parsed := ParseUpsert(sql);
    if parsed.None? then None
    else
      var (columns, names) := parsed.value;
      if !AllBound(bound, Placeholders(sql)) || Placeholders(sql) != |columns| + |names| then None
      else Upsert(profiles, columns, names, InOrder(bound, Placeholders(sql)))
  }

  /** The columns a statement inserts into, and those it assigns on an existing key. */
  function ParseUpsert(sql: string): Option<(seq<string>, seq<string>)> {
    if !(OPENING <= sql) then None
    else
      var listed := ParseColumns(sql[|OPENING|..]);
      if listed.None? || !(VALUES + DUPLICATE <= listed.value.1) then None
      else
        var names := ParseAssignments(listed.value.1[|VALUES + DUPLICATE|..]);
        if names.None? then None else Some((listed.value.0, names.value))
  }

  // -------------------------------------------------- what the code generates

  function FieldIf<T>(value: Option<T>, name: string): seq<string> {
    if value.Some? then [name] else []
  }

  function Fields(update: ProfileUpdate): seq<string> {
    FieldIf(update.nickname, "nickname") + FieldIf(update.avatarUrl, "avatar_url") + FieldIf(update.bio, "bio")
    + FieldIf(update.gender, "gender")
  }

  function SetClause(names: seq<string>): string
    decreases |names|
  {
    if names == [] then ""
    else if |names| == 1 then names[0] + " = ?"
    else SetClause(names[..|names| - 1]) + ", " + names[|names| - 1] + " = ?"
  }

  function Statement(names: seq<string>): string { Insert() + SetClause(names) }

  function TextIf(value: Option<string>): seq<Argument> {
    if value.Some? then [Str(value.value)] else []
  }

  function NumIf(value: Option<int>): seq<Argument> {
    if value.Some? then [Num(value.value)] else []
  }

  /** The values of the present fields, in the order of Fields. */
  function Values(update: ProfileUpdate): seq<Argument> {
    TextIf(update.nickname) + TextIf(update.avatarUrl) + TextIf(update.bio) + NumIf(update.gender)
  }

  function InsertValues(id: int, update: ProfileUpdate): seq<Argument> {
    [Num(id), Str(Or(update.nickname, "")), Str(Or(update.avatarUrl, "")), Str(Or(update.bio, "")),
     Num(Or(update.gender, 0))]
  }

  // ---------------------------------------------- the text says what was meant

  predicate Plain(name: string) { ' ' !in name && '?' !in name }

  lemma {:induction false} PlaceholdersAppend(a: string, b: string)
    ensures Placeholders(a + b) == Placeholders(a) + Placeholders(b)
  {
    if a == [] {
      assert a + b == b;
    } else {
      assert (a + b)[1..] == a[1..] + b;
      PlaceholdersAppend(a[1..], b);
    }
  }

  lemma {:induction false} NoPlaceholders(s: string)
    requires '?' !in s
    ensures Placeholders(s) == 0
  {
    if s == [] {
    } else {
      NoPlaceholders(s[1..]);
    }
  }

  lemma AssignmentText(name: string)
    requires Plain(name)
    ensures Placeholders(name + " = ?") == 1
  {
    PlaceholdersAppend(name, " = ?");
    NoPlaceholders(name);
    assert " = ?"[1..] == "= ?" && "= ?"[1..] == " ?" && " ?"[1..] == "?" && "?"[1..] == "";
    assert Placeholders("?") == 1 && Placeholders(" ?") == 1 && Placeholders("= ?") == 1;
  }

  lemma {:induction false} SetClausePlaceholders(names: seq<string>)
    requires forall name :: name in names ==> Plain(name)
    ensures Placeholders(SetClause(names)) == |names|
    decreases |names|
  {
    if names == [] {
    } else if |names| == 1 {
      AssignmentText(names[0]);
    } else {
      var n := |names| - 1;
      SetClausePlaceholders(names[..n]);
      AssignmentText(names[n]);
      var assignment := names[n] + " = ?";
      assert SetClause(names) == SetClause(names[..n]) + (", " + assignment);
      PlaceholdersAppend(SetClause(names[..n]), ", " + assignment);
      PlaceholdersAppend(", ", assignment);
      NoPlaceholders(", ");
    }
  }

  lemma Regroup(head: string, middle: string, gap: string, name: string, tail: string)
    ensures head + middle + gap + name + tail == head + (middle + gap + name + tail)
  {
  }

  lemma SetClauseLast(names: seq<string>)
    requires |names| > 1
    ensures SetClause(names) == SetClause(names[..|names| - 1]) + ", " + names[|names| - 1] + " = ?"
  {
  }

  lemma {:induction false} SetClauseFront(name: string, names: seq<string>)
    requires names != []
    ensures SetClause([name] + names) == name + " = ?" + ", " + SetClause(names)
    decreases |names|
  {
    var all := [name] + names;
    SetClauseLast(all);
    if |names| == 1 {
      assert all[..1] == [name];
      Regroup(name + " = ?" + ", ", "", "", names[0], " = ?");
    } else {
      var n := |names| - 1;
      SetClauseLast(names);
      assert all[..|all| - 1] == [name] + names[..n] && all[|all| - 1] == names[n];
      SetClauseFront(name, names[..n]);
      hide SetClause;
      Regroup(name + " = ?" + ", ", SetClause(names[..n]), ", ", names[n], " = ?");
    }
  }

  lemma Cut(name: string, mark: string, tail: string)
    ensures var text := name + mark + tail;
            && text[..|name|] == name
            && text[|name|..|name| + |mark|] == mark
            && text[|name| + |mark|..] == tail
  {
  }

  lemma SpaceAfter(name: string, tail: string)
    requires Plain(name)
    ensures IndexOf(name + " = ?" + tail, ' ', 0) == Some(|name|)
  {
    IndexOfIs(name + " = ?" + tail, ' ', 0, |name|);
  }

  lemma LastAssignment(name: string)
    requires Plain(name)
    ensures ParseAssignments(name + " = ?") == Some([name])
  {
    var text := name + " = ?" + "";
    SpaceAfter(name, "");
    Cut(name, " = ?", "");
    hide IndexOf;
    assert text == name + " = ?";
  }

  lemma NextAssignment(name: string, more: string)
    requires Plain(name) && ParseAssignments(more).Some?
    ensures ParseAssignments(name + " = ?" + ", " + more) == Some([name] + ParseAssignments(more).value)
  {
    var text := name + " = ?" + (", " + more);
    SpaceAfter(name, ", " + more);
    Cut(name, " = ?", ", " + more);
    Cut("", ", ", more);
    hide IndexOf, Plain;
    assert text == name + " = ?" + ", " + more;
    assert "" + ", " + more == ", " + more;
  }

  /** The database reads back from the clause exactly the columns that were written into it. */
  lemma {:induction false} ClauseRoundTrip(names: seq<string>)
    requires names != [] && forall name :: name in names ==> Plain(name)
    ensures ParseAssignments(SetClause(names)) == Some(names)
    decreases |names|
  {
    var first := names[0];
    assert Plain(first);
    hide ParseAssignments, Plain;
    if |names| == 1 {
      LastAssignment(first);
      assert names == [first];
    } else {
      assert names == [first] + names[1..];
      ClauseRoundTrip(names[1..]);
      SetClauseFront(first, names[1..]);
      hide SetClause;
      NextAssignment(first, SetClause(names[1..]));
    }
  }

  lemma FieldsArePlain(update: ProfileUpdate)
    ensures forall name :: name in Fields(update) ==> Plain(name)
    ensures |Fields(update)| == |Values(update)|
    ensures IsEmpty(update) <==> Fields(update) == []
  {
    assert Plain("nickname") && Plain("avatar_url") && Plain("bio") && Plain("gender");
  }

  lemma WithoutPlaceholders(a: string, b: string)
    requires '?' !in b && Placeholders(a) == 0
    ensures Placeholders(a + b) == 0
  {
    PlaceholdersAppend(a, b);
    NoPlaceholders(b);
  }

  lemma NoMarkInNames(a: string, b: string, c: string, d: string, e: string)
    requires Plain(a) && Plain(b) && Plain(c) && Plain(d) && Plain(e)
    ensures '?' !in FiveNames(a, b, c, d, e)
  {
  }

  lemma NamedHasNoMark()
    ensures '?' !in NAMED
  {
    NamesArePlain();
    hide Plain, FiveNames;
    NoMarkInNames("user_id", "nickname", "avatar_url", "bio", "gender");
  }

  lemma OpeningHasNoMark()
    ensures '?' !in OPENING
  {
  }

  lemma IntoPlaceholders()
    ensures Placeholders(INTO) == 0
  {
    hide Placeholders, FiveNames;
    OpeningHasNoMark();
    NamedHasNoMark();
    NoPlaceholders(OPENING);
    WithoutPlaceholders(OPENING, NAMED);
  }

  predicate IsColumn(name: string) { ',' !in name && ')' !in name }

  lemma {:induction false} EndOfNameIs(text: string, n: nat)
    requires n < |text| && (text[n] == ',' || text[n] == ')')
    requires forall k :: 0 <= k < n ==> text[k] != ',' && text[k] != ')'
    ensures EndOfName(text) == n
  {
  }

  lemma LastColumn(name: string, tail: string)
    requires IsColumn(name)
    ensures ParseColumns(name + ") " + tail) == Some(([name], tail))
  {
    EndOfNameIs(name + ") " + tail, |name|);
    Cut(name, ") ", tail);
    hide EndOfName;
  }

  lemma NextColumn(name: string, more: string)
    requires IsColumn(name) && ParseColumns(more).Some?
    ensures ParseColumns(name + ", " + more) == Some(([name] + ParseColumns(more).value.0, ParseColumns(more).value.1))
  {
    EndOfNameIs(name + ", " + more, |name|);
    Cut(name, ", ", more);
    hide EndOfName;
  }

  lemma OneColumn(name: string, more: string, tail: string)
    ensures name + ", " + more + tail == name + ", " + (more + tail)
  {
  }

  lemma FiveColumns(a: string, b: string, c: string, d: string, e: string, tail: string)
    requires IsColumn(a) && IsColumn(b) && IsColumn(c) && IsColumn(d) && IsColumn(e)
    ensures ParseColumns(FiveNames(a, b, c, d, e) + tail) == Some(([a, b, c, d, e], tail))
  {
    hide ParseColumns, IsColumn;
    var one := e + ") ";
    var two := d + ", " + one;
    var three := c + ", " + two;
    var four := b + ", " + three;
    LastColumn(e, tail);
    NextColumn(d, one + tail);
    OneColumn(d, one, tail);
    NextColumn(c, two + tail);
    OneColumn(c, two, tail);
    NextColumn(b, three + tail);
    OneColumn(b, three, tail);
    NextColumn(a, four + tail);
    OneColumn(a, four, tail);
    assert [a] + ([b] + ([c] + ([d] + [e]))) == [a, b, c, d, e];
  }

  lemma NamesAreColumns()
    ensures IsColumn("user_id") && IsColumn("nickname") && IsColumn("avatar_url") && IsColumn("bio")
    ensures IsColumn("gender")
  {
  }

  lemma NamesArePlain()
    ensures Plain("user_id") && Plain("nickname") && Plain("avatar_url") && Plain("bio") && Plain("gender")
  {
  }

  /** The columns are read back from the text as the code lists them. */
  lemma ColumnsRead(tail: string)
    ensures ParseColumns(NAMED + tail) == Some((["user_id", "nickname", "avatar_url", "bio", "gender"], tail))
  {
    NamesAreColumns();
    hide ParseColumns, IsColumn, Plain, FiveNames;
    FiveColumns("user_id", "nickname", "avatar_url", "bio", "gender", tail);
  }

  /** The whole statement is read back as the columns of the inserted row and those to assign. */
  lemma StatementRead(names: seq<string>)
    requires names != [] && forall name :: name in names ==> Plain(name)
    ensures ParseUpsert(Statement(names))
            == Some((["user_id", "nickname", "avatar_url", "bio", "gender"], names))
  {
    ClauseRoundTrip(names);
    var rest := VALUES + DUPLICATE + SetClause(names);
    ColumnsRead(rest);
    hide ParseColumns, ParseAssignments, SetClause, Plain;
    InsertText(OPENING, NAMED, VALUES, DUPLICATE, SetClause(names));
  }

  lemma InsertText(a: string, b: string, c: string, d: string, e: string)
    ensures a + b + c + d + e == a + (b + (c + d + e))
    ensures (a + (b + (c + d + e)))[|a|..] == b + (c + d + e)
    ensures (c + d + e)[|c + d|..] == e
  {
  }

  lemma StatementPlaceholders(names: seq<string>)
    requires forall name :: name in names ==> Plain(name)
    ensures Placeholders(Statement(names)) == 5 + |names|
  {
    SetClausePlaceholders(names);
    IntoPlaceholders();
    NoPlaceholders(DUPLICATE);
    ValuesPlaceholders();
    hide Placeholders, SetClause;
    var clause := SetClause(names);
    PlaceholdersAppend(Insert(), clause);
    PlaceholdersAppend(INTO + VALUES, DUPLICATE);
    PlaceholdersAppend(INTO, VALUES);
  }

  lemma OneMark()
    ensures Placeholders("?") == 1
  {
    assert "?"[1..] == "";
  }

  lemma MarkAfter(text: string, gap: string)
    requires '?' !in gap
    ensures Placeholders(text + gap + "?") == Placeholders(text) + 1
  {
    NoPlaceholders(gap);
    OneMark();
    hide Placeholders;
    PlaceholdersAppend(text + gap, "?");
    PlaceholdersAppend(text, gap);
  }

  lemma ValuesPlaceholders()
    ensures Placeholders(VALUES) == 5
  {
    NoPlaceholders("VALUES (");
    OneMark();
    NoPlaceholders(") ");
    hide Placeholders;
    PlaceholdersAppend("VALUES (", "?");
    var one := "VALUES (" + "?";
    MarkAfter(one, ", ");
    var two := one + ", " + "?";
    MarkAfter(two, ", ");
    var three := two + ", " + "?";
    MarkAfter(three, ", ");
    var four := three + ", " + "?";
    MarkAfter(four, ", ");
    PlaceholdersAppend(four + ", " + "?", ") ");
  }

  // ------------------------------------------------- the statement does its job

  function Arguments(id: int, update: ProfileUpdate): seq<Argument> { InsertValues(id, update) + Values(update) }

  /** Placeholder k + 1 is bound to argument k, and nothing else is bound. */
  predicate BoundTo(bound: map<int, Argument>, arguments: seq<Argument>) {
    AllBound(bound, |arguments|) && forall k :: 0 <= k < |arguments| ==> bound[k + 1] == arguments[k]
  }

  lemma BindNext(bound: map<int, Argument>, arguments: seq<Argument>, next: Argument)
    requires BoundTo(bound, arguments)
    ensures BoundTo(bound[|arguments| + 1 := next], arguments + [next])
  {
    var n := |arguments|;
    if n + 1 in bound {
      KeysAreNumbers(bound.Keys, n);
    }
  }

  lemma NothingBound(arguments: seq<Argument>)
    requires arguments == []
    ensures BoundTo(map[], arguments)
  {
  }

  lemma BindField(bound: map<int, Argument>, row: seq<Argument>, values: seq<Argument>, i: nat)
    requires i < |values| && BoundTo(bound, row + values[..i])
    ensures BoundTo(bound[|row| + i + 1 := values[i]], row + values[..i + 1])
  {
    hide BoundTo;
    BindNext(bound, row + values[..i], values[i]);
    assert row + values[..i + 1] == (row + values[..i]) + [values[i]];
  }

  lemma BindPart(bound: map<int, Argument>, arguments: seq<Argument>, k: nat)
    requires k < |arguments| && BoundTo(bound, arguments[..k])
    ensures BoundTo(bound[k + 1 := arguments[k]], arguments[..k + 1])
  {
    hide BoundTo;
    BindNext(bound, arguments[..k], arguments[k]);
    assert arguments[..k + 1] == arguments[..k] + [arguments[k]];
  }

  /** n keys that include 1 to n are 1 to n. */
  lemma {:induction false} KeysAreNumbers(keys: set<int>, n: nat)
    requires |keys| == n && forall k :: 1 <= k <= n ==> k in keys
    ensures forall k :: k in keys ==> 1 <= k <= n
  {
    if n == 0 {
    } else {
      KeysAreNumbers(keys - {n}, n - 1);
      forall k | k in keys
        ensures 1 <= k <= n
      {
        assert k == n || k in keys - {n};
      }
    }
  }

  lemma {:induction false} SetColumnsAppend(row: Profile, a: seq<string>, va: seq<Argument>,
                                               b: seq<string>, vb: seq<Argument>)
    requires |a| == |va| && |b| == |vb| && SetColumns(row, a, va).Some?
    ensures SetColumns(row, a + b, va + vb) == SetColumns(SetColumns(row, a, va).value, b, vb)
    decreases |a|
  {
    if a == [] {
      assert a + b == b && va + vb == vb;
    } else {
      assert (a + b)[1..] == a[1..] + b && (va + vb)[1..] == va[1..] + vb;
      SetColumnsAppend(SetColumn(row, a[0], va[0]).value, a[1..], va[1..], b, vb);
    }
  }

  lemma SetOne(row: Profile, name: string, value: Argument)
    ensures SetColumns(row, [name], [value]) == SetColumn(row, name, value)
    ensures SetColumns(row, [], []) == Some(row)
  {
    var names, values := [name], [value];
    assert names[1..] == [] && values[1..] == [];
  }

  /** The generated assignments overwrite exactly the present fields of the row. */
  lemma OverwritesPresent(row: Profile, update: ProfileUpdate)
    ensures |Fields(update)| == |Values(update)|
    ensures SetColumns(row, Fields(update), Values(update)) == Some(Overwritten(row, update))
  {
    var names1, values1 := FieldIf(update.nickname, "nickname"), TextIf(update.nickname);
    var names2, values2 := FieldIf(update.avatarUrl, "avatar_url"), TextIf(update.avatarUrl);
    var names3, values3 := FieldIf(update.bio, "bio"), TextIf(update.bio);
    var names4, values4 := FieldIf(update.gender, "gender"), NumIf(update.gender);
    var row1 := row.(nickname := OrKept(update.nickname, row.nickname));
    var row2 := row1.(avatarUrl := OrKept(update.avatarUrl, row.avatarUrl));
    var row3 := row2.(bio := OrKept(update.bio, row.bio));
    var row4 := row3.(gender := Or(update.gender, row.gender));
    assert SetColumns(row, names1, values1) == Some(row1) by {
      SetOne(row, "nickname", Str(Or(update.nickname, "")));
    }
    assert SetColumns(row1, names2, values2) == Some(row2) by {
      SetOne(row1, "avatar_url", Str(Or(update.avatarUrl, "")));
    }
    assert SetColumns(row2, names3, values3) == Some(row3) by {
      SetOne(row2, "bio", Str(Or(update.bio, "")));
    }
    assert SetColumns(row3, names4, values4) == Some(row4) by {
      SetOne(row3, "gender", Num(Or(update.gender, 0)));
    }
    hide SetColumns;
    SetColumnsAppend(row, names1, values1, names2, values2);
    SetColumnsAppend(row, names1 + names2, values1 + values2, names3, values3);
    SetColumnsAppend(row, names1 + names2 + names3, values1 + values2 + values3, names4, values4);
  }

  lemma UpsertMeans(profiles: Profiles, id: int, update: ProfileUpdate)
    requires !IsEmpty(update)
    ensures |Arguments(id, update)| == 5 + |Fields(update)|
    ensures Upsert(profiles, ["user_id", "nickname", "avatar_url", "bio", "gender"], Fields(update),
                   Arguments(id, update)) == Some(Upserted(profiles, id, update))
  {
    InsertedRow(id, update);
    assert Arguments(id, update)[5..] == Values(update);
    assert Arguments(id, update)[1..5] == InsertValues(id, update)[1..];
    assert |Fields(update)| == |Values(update)|;
    if id in profiles {
      OverwritesPresent(profiles[id], update);
    }
    hide Fields, Values, SetColumns;
    assert ["user_id", "nickname", "avatar_url", "bio", "gender"][1..] == ["nickname", "avatar_url", "bio", "gender"];
  }

  /** The row to insert has the present fields, and the defaults. */
  lemma InsertedRow(id: int, update: ProfileUpdate)
    ensures |InsertValues(id, update)[1..]| == 4
    ensures SetColumns(NEW_ROW, ["nickname", "avatar_url", "bio", "gender"], InsertValues(id, update)[1..])
            == Some(Created(update))
  {
    var values := InsertValues(id, update)[1..];
    var row1 := NEW_ROW.(nickname := Some(Or(update.nickname, "")));
    var row2 := row1.(avatarUrl := Some(Or(update.avatarUrl, "")));
    var row3 := row2.(bio := Some(Or(update.bio, "")));
    SetFirst(row3, "gender", [], values[3], []);
    SetFirst(row2, "bio", ["gender"], values[2], [values[3]]);
    SetFirst(row1, "avatar_url", ["bio", "gender"], values[1], [values[2], values[3]]);
    SetFirst(NEW_ROW, "nickname", ["avatar_url", "bio", "gender"], values[0], [values[1], values[2], values[3]]);
    hide SetColumns;
    assert values == [values[0]] + [values[1], values[2], values[3]];
    assert [values[1], values[2], values[3]] == [values[1]] + [values[2], values[3]];
    assert [values[2], values[3]] == [values[2]] + [values[3]];
    assert ["nickname"] + ["avatar_url", "bio", "gender"] == ["nickname", "avatar_url", "bio", "gender"];
    assert ["avatar_url"] + ["bio", "gender"] == ["avatar_url", "bio", "gender"];
    assert ["bio"] + ["gender"] == ["bio", "gender"];
    assert ["gender"] + [] == ["gender"] && [values[3]] + [] == [values[3]];
    assert SetColumns(row3, ["gender"], [values[3]]) == Some(Created(update));
  }

  lemma SetFirst(row: Profile, name: string, names: seq<string>, value: Argument, values: seq<Argument>)
    requires |names| == |values| && SetColumn(row, name, value).Some?
    ensures SetColumns(row, [name] + names, [value] + values)
            == SetColumns(SetColumn(row, name, value).value, names, values)
    ensures names == [] ==> SetColumns(row, [name] + names, [value] + values) == SetColumn(row, name, value)
  {
    assert ([name] + names)[1..] == names && ([value] + values)[1..] == values;
  }

  lemma InOrderIs(bound: map<int, Argument>, arguments: seq<Argument>)
    requires BoundTo(bound, arguments)
    ensures AllBound(bound, |arguments|) && InOrder(bound, |arguments|) == arguments
  {
  }

  lemma ExecuteIs(profiles: Profiles, names: seq<string>, bound: map<int, Argument>, arguments: seq<Argument>)
    requires names != [] && (forall name :: name in names ==> Plain(name))
    requires |arguments| == 5 + |names| && BoundTo(bound, arguments)
    ensures AllBound(bound, Placeholders(Statement(names)))
    ensures Execute(profiles, Statement(names), bound)
            == Upsert(profiles, ["user_id", "nickname", "avatar_url", "bio", "gender"], names, arguments)
  {
    hide Placeholders, ParseUpsert, Statement, Upsert, InOrder, AllBound, BoundTo, Plain;
    StatementPlaceholders(names);
    StatementRead(names);
    InOrderIs(bound, arguments);
  }

  /** Every placeholder of the generated statement has its argument, and executing it does
      exactly what the update means: for every subset of present fields, on every table. */
  lemma StatementMeans(profiles: Profiles, id: int, update: ProfileUpdate, bound: map<int, Argument>)
    requires !IsEmpty(update) && BoundTo(bound, Arguments(id, update))
    ensures AllBound(bound, Placeholders(Statement(Fields(update))))
    ensures Execute(profiles, Statement(Fields(update)), bound) == Some(Upserted(profiles, id, update))
  {
    hide Execute, Fields, Values, InsertValues, Upsert, Upserted, Statement, Placeholders;
    FieldsArePlain(update);
    UpsertMeans(profiles, id, update);
    ExecuteIs(profiles, Fields(update), bound, Arguments(id, update));
  }

  lemma NothingToUpdate(profiles: Profiles, id: int, update: ProfileUpdate)
    requires IsEmpty(update)
    ensures Upserted(profiles, id, update) == profiles
  {
  }

  // ------------------------------------------------------ reading a user's data

  datatype UserInfo = UserInfo(uuid: string, username: string, email: string, createdAt: string,
                               nickname: string, avatarUrl: string, bio: string, gender: int)

  datatype ErrorCode = Success | UserNotFound | DatabaseError

  datatype Answer = Found(info: UserInfo) | Failed(code: ErrorCode)

  /** Both tables and the cache. */
  datatype State = State(users: map<int, User>, profiles: Profiles, cache: Store<UserInfo>)

  /** What the tables say: the user's row with its profile, NULLs and a missing profile as empty values. */
  function ReadTables(users: map<int, User>, profiles: Profiles, id: int): Answer {
    if id !in users then Failed(UserNotFound)
    else
      var user := users[id];
      if id in profiles then
        var row := profiles[id];
        Found(UserInfo(user.uuid, user.username, user.email, user.createdAt,
                       Or(row.nickname, ""), Or(row.avatarUrl, ""), Or(row.bio, ""), row.gender))
      else Found(UserInfo(user.uuid, user.username, user.email, user.createdAt, "", "", "", 0))
  }

  function CacheKey(id: int): string { "user:info:" + IntToString(id) }

  /** A hit: the document, or the mark for a user who is not there. */
  function Cached(cache: Store<UserInfo>, id: int, now: int): Option<Answer> {
    var value := Get(cache, CacheKey(id), now);
    if value == Some(Text("null")) then Some(Failed(UserNotFound))
    else if value.Some? && value.value.Json? then Some(Found(value.value.document))
    else None
  }

  /** What a read leaves in the cache after it has asked the tables. */
  function Filled(cache: Store<UserInfo>, id: int, answer: Answer, jitter: nat, now: int): Store<UserInfo> {
    if answer.Found? then SetEx(cache, CacheKey(id), 3600 + jitter, Json(answer.info), now)
    else if answer.code.UserNotFound? then SetEx(cache, CacheKey(id), 60, Text("null"), now)
    else cache
  }

  /** getUserInfoJson with a working Redis. */
  function ReadInfo(s: State, id: int, jitter: nat, now: int): (State, Answer) {
    var hit := Cached(s.cache, id, now);
    if hit.Some? then (s, hit.value)
    else
      var answer := ReadTables(s.users, s.profiles, id);
      (s.(cache := Filled(s.cache, id, answer, jitter, now)), answer)
  }

  // ------------------------------------------------------------- whole runs

  /** Registering adds both rows, unless the id is taken in either table. */
  datatype Event = Register(id: int, user: User) | Update(id: int, update: ProfileUpdate) | Read(id: int, jitter: nat)

  datatype Call = Call(event: Event, at: int)

  function Step(s: State, call: Call): State {
    match call.event
    case Register(id, user) =>
      if id in s.users || id in s.profiles then s
      else s.(users := s.users[id := user], profiles := s.profiles[id := Profile(None, None, None, 0, None, None)])
    case Update(id, update) =>
      s.(profiles := Upserted(s.profiles, id, update),
         cache := if IsEmpty(update) then s.cache else Del(s.cache, CacheKey(id)))
    case Read(id, jitter) => ReadInfo(s, id, jitter, call.at).0
  }

  function Apply(s: State, run: seq<Call>): State
    decreases |run|
  {
    if run == [] then s else Step(Apply(s, run[..|run| - 1]), run[|run| - 1])
  }

  /** From any tables and an empty cache. */
  function After(users: map<int, User>, profiles: Profiles, run: seq<Call>): State {
    Apply(State(users, profiles, map[]), run)
  }

  ghost predicate InTime(run: seq<Call>, end: int) {
    && (forall i :: 0 <= i < |run| ==> run[i].at <= end)
    && (forall i, j :: 0 <= i < j < |run| ==> run[i].at <= run[j].at)
  }

  /** Whether an id has a row in either table. */
  datatype Presence = Presence(registered: bool, profiled: bool)

  /** The same, read off the calls. */
  function PresenceAfter(users: map<int, User>, profiles: Profiles, run: seq<Call>, id: int): Presence
    decreases |run|
  {
    if run == [] then Presence(id in users, id in profiles)
    else
      var last, before := run[|run| - 1], PresenceAfter(users, profiles, run[..|run| - 1], id);
      if last.event.id != id then before
      else
        match last.event
        case Register(_, _) => if before.registered || before.profiled then before else Presence(true, true)
        case Update(_, update) => if IsEmpty(update) then before else before.(profiled := true)
        case Read(_, _) => before
  }

  /** When the last mark of a missing user ends, read off the calls: a read leaves one for a
      minute, if the user is missing and no mark is there; an update with some field clears it. */
  function MarkEnd(users: map<int, User>, profiles: Profiles, run: seq<Call>, id: int): Option<int>
    decreases |run|
  {
    if run == [] then None
    else
      var last, before := run[|run| - 1], run[..|run| - 1];
      var mark := MarkEnd(users, profiles, before, id);
      if last.event.id != id then mark
      else
        match last.event
        case Register(_, _) => mark
        case Update(_, update) => if IsEmpty(update) then mark else None
        case Read(_, _) =>
          if PresenceAfter(users, profiles, before, id).registered || Lasts(mark, last.at) then mark
          else Some(last.at + 60)
  }

  /** When the last cached document of a user ends, read off the calls: a read of a registered
      user that finds neither document nor mark leaves one for an hour and some seconds; an
      update with some field clears it. */
  function DocumentEnd(users: map<int, User>, profiles: Profiles, run: seq<Call>, id: int): Option<int>
    decreases |run|
  {
    if run == [] then None
    else
      var last, before := run[|run| - 1], run[..|run| - 1];
      var document := DocumentEnd(users, profiles, before, id);
      if last.event.id != id then document
      else
        match last.event
        case Register(_, _) => document
        case Update(_, update) => if IsEmpty(update) then document else None
        case Read(_, jitter) =>
          if !PresenceAfter(users, profiles, before, id).registered || Lasts(document, last.at)
             || Lasts(MarkEnd(users, profiles, before, id), last.at) then document
          else Some(last.at + 3600 + jitter)
  }

  /** A mark or a document that is still there at a time. */
  predicate Lasts(mark: Option<int>, now: int) { mark.Some? && now < mark.value }

  // ------------------------------------------- the cache says what the tables say

  /** What is cached for a user: the mark or the document the calls tell of, until the time
      they tell, and nothing else; and the document is what the tables hold. */
  ghost predicate CacheTells(s: State, id: int, mark: Option<int>, document: Option<int>, clock: int) {
    && (CacheKey(id) in s.cache ==> EntryTells(s, id, s.cache[CacheKey(id)], mark, document))
    && (Lasts(mark, clock) ==>
          CacheKey(id) in s.cache && s.cache[CacheKey(id)] == Entry(Text("null"), mark))
    && (Lasts(document, clock) ==>
          CacheKey(id) in s.cache && s.cache[CacheKey(id)].value.Json? && s.cache[CacheKey(id)].deadline == document)
  }

  ghost predicate EntryTells(s: State, id: int, entry: Entry<UserInfo>, mark: Option<int>, document: Option<int>) {
    && entry.deadline.Some?
    && (entry.value == Text("null") || entry.value.Json?)
    && (entry.value.Json? ==>
          entry.deadline == document && ReadTables(s.users, s.profiles, id) == Found(entry.value.document))
    && (entry.value.Text? ==> entry.deadline == mark)
  }

  lemma CacheKeysApart(a: int, b: int)
    requires CacheKey(a) == CacheKey(b)
    ensures a == b
  {
    assert CacheKey(a)[10..] == IntToString(a) && CacheKey(b)[10..] == IntToString(b);
    IntToStringInjective(a, b);
  }

  /** Calls for other users do not touch this one. */
  lemma OthersApart(s: State, call: Call, id: int)
    requires call.event.id != id
    ensures var n := Step(s, call);
            && ReadTables(n.users, n.profiles, id) == ReadTables(s.users, s.profiles, id)
            && (id in n.users <==> id in s.users)
            && (CacheKey(id) in n.cache <==> CacheKey(id) in s.cache)
            && (CacheKey(id) in s.cache ==> n.cache[CacheKey(id)] == s.cache[CacheKey(id)])
  {
    if CacheKey(call.event.id) == CacheKey(id) {
      CacheKeysApart(call.event.id, id);
    }
    hide CacheKey, Overwritten, Created, IsEmpty;
  }

  lemma ReadKeeps(s: State, id: int, jitter: nat, now: int, mark: Option<int>, document: Option<int>, clock: int)
    requires CacheTells(s, id, mark, document, clock) && clock <= now
    ensures CacheTells(ReadInfo(s, id, jitter, now).0, id,
                       if id in s.users || Lasts(mark, now) then mark else Some(now + 60),
                       if id !in s.users || Lasts(document, now) || Lasts(mark, now) then document
                       else Some(now + 3600 + jitter), now)
  {
    hide CacheKey, ReadTables;
    FailsIffAbsent(s, id);
  }

  lemma FailsIffAbsent(s: State, id: int)
    ensures ReadTables(s.users, s.profiles, id) == Failed(UserNotFound) <==> id !in s.users
    ensures ReadTables(s.users, s.profiles, id).Failed? ==> ReadTables(s.users, s.profiles, id).code == UserNotFound
  {
  }

  lemma RegisterKeeps(s: State, id: int, user: User, at: int, mark: Option<int>, document: Option<int>, clock: int)
    requires CacheTells(s, id, mark, document, clock) && clock <= at
    ensures CacheTells(Step(s, Call(Register(id, user), at)), id, mark, document, at)
  {
    hide CacheKey;
  }

  lemma UpdateKeeps(s: State, id: int, update: ProfileUpdate, at: int, mark: Option<int>, document: Option<int>,
                    clock: int)
    requires CacheTells(s, id, mark, document, clock) && clock <= at
    ensures CacheTells(Step(s, Call(Update(id, update), at)), id, if IsEmpty(update) then mark else None,
                       if IsEmpty(update) then document else None, at)
  {
    hide CacheKey, Overwritten, Created;
  }

  lemma TellsAfterOther(s: State, call: Call, id: int, mark: Option<int>, document: Option<int>, clock: int)
    requires CacheTells(s, id, mark, document, clock) && call.event.id != id && clock <= call.at
    ensures CacheTells(Step(s, call), id, mark, document, call.at)
  {
    OthersApart(s, call, id);
    hide Step, ReadTables, CacheKey;
  }

  lemma TellsLater(s: State, id: int, mark: Option<int>, document: Option<int>, clock: int, later: int)
    requires CacheTells(s, id, mark, document, clock) && clock <= later
    ensures CacheTells(s, id, mark, document, later)
  {
    hide CacheKey, ReadTables;
  }

  lemma {:induction false} PresenceIs(users: map<int, User>, profiles: Profiles, run: seq<Call>, id: int)
    ensures var s := After(users, profiles, run);
            PresenceAfter(users, profiles, run, id) == Presence(id in s.users, id in s.profiles)
    decreases |run|
  {
    if run == [] {
    } else {
      PresenceIs(users, profiles, run[..|run| - 1], id);
      hide Overwritten, Created, CacheKey, Filled, Cached, ReadTables;
    }
  }

  /** In every reachable state the cache tells what the tables and the calls tell. */
  lemma {:induction false} RunTells(users: map<int, User>, profiles: Profiles, run: seq<Call>, id: int, now: int)
    requires InTime(run, now)
    ensures CacheTells(After(users, profiles, run), id, MarkEnd(users, profiles, run, id),
                       DocumentEnd(users, profiles, run, id), now)
    decreases |run|
  {
    if run == [] {
    } else {
      var before, last := run[..|run| - 1], run[|run| - 1];
      var s := After(users, profiles, before);
      var mark := MarkEnd(users, profiles, before, id);
      var document := DocumentEnd(users, profiles, before, id);
      assert InTime(before, last.at);
      RunTells(users, profiles, before, id, last.at);
      PresenceIs(users, profiles, before, id);
      hide CacheTells, ReadInfo, PresenceAfter, Lasts;
      if last.event.id != id {
        TellsAfterOther(s, last, id, mark, document, last.at);
      } else {
        match last.event
        case Register(_, user) => RegisterKeeps(s, id, user, last.at, mark, document, last.at);
        case Update(_, update) => UpdateKeeps(s, id, update, last.at, mark, document, last.at);
        case Read(_, jitter) => ReadKeeps(s, id, jitter, last.at, mark, document, last.at);
      }
      TellsLater(After(users, profiles, run), id, MarkEnd(users, profiles, run, id),
                 DocumentEnd(users, profiles, run, id), last.at, now);
    }
  }

  /** Over every run, said by the calls alone: a read does without the tables if and only if a
      document or a mark is still there; and then it answers with the one that is. */
  lemma HitIff(users: map<int, User>, profiles: Profiles, run: seq<Call>, id: int, now: int)
    requires InTime(run, now)
    ensures var s := After(users, profiles, run);
            var (mark, document) := (MarkEnd(users, profiles, run, id), DocumentEnd(users, profiles, run, id));
            && (Cached(s.cache, id, now).Some? <==> Lasts(mark, now) || Lasts(document, now))
            && (Lasts(document, now) ==> Cached(s.cache, id, now) == Some(ReadTables(s.users, s.profiles, id)))
            && (Lasts(mark, now) ==> Cached(s.cache, id, now) == Some(Failed(UserNotFound)))
  {
    RunTells(users, profiles, run, id, now);
    hide After, CacheKey, MarkEnd, DocumentEnd, ReadTables;
  }

  /** Whatever the cache held: after an update with some field, the next read returns the
      present fields as updated, and of everything else what the tables said before. */
  lemma UpdateThenRead(s: State, id: int, update: ProfileUpdate, at: int, jitter: nat, now: int)
    requires id in s.users && !IsEmpty(update)
    ensures var before := ReadTables(s.users, s.profiles, id).info;
            ReadInfo(Step(s, Call(Update(id, update), at)), id, jitter, now).1
            == Found(before.(nickname := Or(update.nickname, before.nickname),
                             avatarUrl := Or(update.avatarUrl, before.avatarUrl),
                             bio := Or(update.bio, before.bio),
                             gender := Or(update.gender, before.gender)))
  {
    hide CacheKey;
    assert CacheKey(id) !in Step(s, Call(Update(id, update), at)).cache;
  }

  /** What the last update of a run with this field present has set it to. */
  function LastSet<T>(run: seq<Call>, id: int, field: ProfileUpdate -> Option<T>, start: T): T
    decreases |run|
  {
    if run == [] then start
    else
      var last, before := run[|run| - 1], run[..|run| - 1];
      if last.event.Update? && last.event.id == id && field(last.event.update).Some?
      then field(last.event.update).value
      else LastSet(before, id, field, start)
  }

  /** What the calls made since a user registered say about that user. */
  function AccountSince(run: seq<Call>, id: int, user: User): UserInfo {
    UserInfo(user.uuid, user.username, user.email, user.createdAt,
             LastSet(run, id, (u: ProfileUpdate) => u.nickname, ""),
             LastSet(run, id, (u: ProfileUpdate) => u.avatarUrl, ""),
             LastSet(run, id, (u: ProfileUpdate) => u.bio, ""),
             LastSet(run, id, (u: ProfileUpdate) => u.gender, 0))
  }

  lemma SinceStep(run: seq<Call>, call: Call, id: int, user: User)
    ensures var before := AccountSince(run, id, user);
            AccountSince(run + [call], id, user)
            == if call.event.Update? && call.event.id == id then
                 before.(nickname := Or(call.event.update.nickname, before.nickname),
                         avatarUrl := Or(call.event.update.avatarUrl, before.avatarUrl),
                         bio := Or(call.event.update.bio, before.bio),
                         gender := Or(call.event.update.gender, before.gender))
               else before
  {
    assert (run + [call])[..|run|] == run;
  }

  /** What one more call does to what the tables say about a user who is there. */
  lemma CallThenTables(s: State, call: Call, id: int)
    requires id in s.users
    ensures var n := Step(s, call);
            var before := ReadTables(s.users, s.profiles, id).info;
            && id in n.users
            && ReadTables(n.users, n.profiles, id)
               == Found(if call.event.Update? && call.event.id == id then
                          before.(nickname := Or(call.event.update.nickname, before.nickname),
                                  avatarUrl := Or(call.event.update.avatarUrl, before.avatarUrl),
                                  bio := Or(call.event.update.bio, before.bio),
                                  gender := Or(call.event.update.gender, before.gender))
                        else before)
  {
    if call.event.id != id {
      OthersApart(s, call, id);
    }
    hide CacheKey;
  }

  /** From registration on, over every run of calls for any users: the tables give the account
      data, and for each field of the profile what the last update that had it has set, or
      the default. */
  lemma {:induction false} TablesFollowTheCalls(s: State, id: int, user: User, at: int, run: seq<Call>)
    requires id !in s.users && id !in s.profiles
    ensures var n := Apply(Step(s, Call(Register(id, user), at)), run);
            id in n.users && ReadTables(n.users, n.profiles, id) == Found(AccountSince(run, id, user))
    decreases |run|
  {
    var registered := Step(s, Call(Register(id, user), at));
    if run == [] {
    } else {
      var before, last := run[..|run| - 1], run[|run| - 1];
      TablesFollowTheCalls(s, id, user, at, before);
      hide Step, ReadTables, AccountSince;
      CallThenTables(Apply(registered, before), last, id);
      SinceStep(before, last, id, user);
      assert before + [last] == run;
    }
  }

  /** In every reachable state, a read returns what the tables say if and only if it does not
      hit the mark of a missing user for a user who is there. */
  lemma ReadAgreesIff(users: map<int, User>, profiles: Profiles, run: seq<Call>, id: int, jitter: nat, now: int)
    requires InTime(run, now)
    ensures var s := After(users, profiles, run);
            ReadInfo(s, id, jitter, now).1 == ReadTables(s.users, s.profiles, id)
            <==> !(id in s.users && Get(s.cache, CacheKey(id), now) == Some(Text("null")))
  {
    RunTells(users, profiles, run, id, now);
    hide After, CacheKey, MarkEnd, DocumentEnd;
  }

  lemma MarkIsCachedIff(s: State, id: int, mark: Option<int>, document: Option<int>, now: int)
    requires CacheTells(s, id, mark, document, now)
    ensures Get(s.cache, CacheKey(id), now) == Some(Text("null")) <==> Lasts(mark, now)
  {
    hide CacheKey, ReadTables;
  }

  /** Over every run, said by the calls alone: a read returns what the tables say if and only
      if the user is not registered, or no mark of its absence is still there. */
  lemma ReadsAgreeIff(users: map<int, User>, profiles: Profiles, run: seq<Call>, id: int, jitter: nat, now: int)
    requires InTime(run, now)
    ensures var s := After(users, profiles, run);
            ReadInfo(s, id, jitter, now).1 == ReadTables(s.users, s.profiles, id)
            <==> !(PresenceAfter(users, profiles, run, id).registered && Lasts(MarkEnd(users, profiles, run, id), now))
  {
    ReadAgreesIff(users, profiles, run, id, jitter, now);
    RunTells(users, profiles, run, id, now);
    PresenceIs(users, profiles, run, id);
    hide After, CacheKey, MarkEnd, DocumentEnd, PresenceAfter, ReadInfo, CacheTells;
    MarkIsCachedIff(After(users, profiles, run), id, MarkEnd(users, profiles, run, id),
                    DocumentEnd(users, profiles, run, id), now);
  }

  /** Before that minute is over, a new user can be reported missing. */
  lemma NewUserReportedMissing(id: int, user: User, jitter: nat, at: int)
    ensures var run := [Call(Read(id, jitter), at), Call(Register(id, user), at)];
            var s := After(map[], map[], run);
            && MarkEnd(map[], map[], run, id) == Some(at + 60)
            && ReadTables(s.users, s.profiles, id).Found?
            && (forall now :: at <= now < at + 60 ==> ReadInfo(s, id, jitter, now).1 == Failed(UserNotFound))
            && ReadInfo(s, id, jitter, at + 60).1.Found?
  {
    var run := [Call(Read(id, jitter), at), Call(Register(id, user), at)];
    var first := run[..1];
    assert first == [run[0]] && first[..0] == [];
    hide CacheKey;
    var s0 := State(map[], map[], map[]);
    var s1 := Step(s0, run[0]);
    assert After(map[], map[], first[..0]) == s0;
    assert After(map[], map[], first) == s1;
    assert MarkEnd(map[], map[], first, id) == Some(at + 60) by {
      assert MarkEnd(map[], map[], first[..0], id) == None;
    }
    assert After(map[], map[], run) == Step(s1, run[1]);
    hide After;
    assert s1 == s0.(cache := Filled(map[], id, Failed(UserNotFound), jitter, at));
  }

  // ------------------------------------------------------------- the service

  class UserService {
    var users: map<int, User>
    var profiles: Profiles
    var redisConnected: bool
    var cache: Store<UserInfo>

    constructor (withRedis: bool)
      ensures users == map[] && profiles == map[] && cache == map[] && redisConnected == withRedis
    {
      users, profiles, cache, redisConnected := map[], map[], map[], withRedis;
    }

    /** updateProfile; `connected` says whether the pool gave a connection. */
    method UpdateProfile(id: int, update: ProfileUpdate, connected: bool) returns (code: ErrorCode)
      modifies `profiles, `cache
      ensures !connected ==> code == DatabaseError && profiles == old(profiles) && cache == old(cache)
      ensures connected ==> code == Success && profiles == Upserted(old(profiles), id, update)
      ensures connected ==>
                cache == if redisConnected && !IsEmpty(update) then Del(old(cache), CacheKey(id)) else old(cache)
    {
      if !connected {
        return DatabaseError;
      }
      hide *;
      var fields := PresentFields(update);
      FieldsArePlain(update);
      if fields == [] {
        NothingToUpdate(profiles, id, update);
        return Success;
      }
      var sql := BuildStatement(fields);
      var bound := BindAll(id, update, fields);
      StatementMeans(profiles, id, update, bound);
      var written := Execute(profiles, sql, bound);
      if written.None? {
        return DatabaseError;
      }
      profiles := written.value;
      if redisConnected {
        cache := Del(cache, CacheKey(id));
      }
      return Success;
    }

    static method PresentFields(update: ProfileUpdate) returns (fields: seq<string>)
      ensures fields == Fields(update)
    {
      fields := [];
      if update.nickname.Some? { fields := fields + ["nickname"]; }
      if update.avatarUrl.Some? { fields := fields + ["avatar_url"]; }
      if update.bio.Some? { fields := fields + ["bio"]; }
      if update.gender.Some? { fields := fields + ["gender"]; }
    }

    static method BuildStatement(fields: seq<string>) returns (sql: string)
      ensures sql == Statement(fields)
    {
      var setClause := "";
      for i := 0 to |fields|
        invariant setClause == SetClause(fields[..i])
      {
        if i != 0 {
          setClause := setClause + ", ";
        }
        setClause := setClause + fields[i] + " = ?";
        assert fields[..i + 1][..i] == fields[..i];
      }
      assert fields[..|fields|] == fields;
      return INTO + VALUES + DUPLICATE + setClause;
    }

    /** Bind with a running position: first the row to insert, then the present fields. */
    static method BindAll(id: int, update: ProfileUpdate, fields: seq<string>) returns (bound: map<int, Argument>)
      requires fields == Fields(update)
      ensures BoundTo(bound, Arguments(id, update))
    {
      var idx;
      bound, idx := BindRow(id, update);
      FieldsArePlain(update);
      ghost var row, values := InsertValues(id, update), Values(update);
      assert |row| == 5 && row + values[..0] == row;
      hide *;
      for i := 0 to |fields|
        invariant idx == 6 + i
        invariant BoundTo(bound, row + values[..i])
      {
        FieldValue(update, i);
        BindField(bound, row, values, i);
        if fields[i] == "nickname" {
          bound, idx := bound[idx := Str(update.nickname.value)], idx + 1;
        } else if fields[i] == "avatar_url" {
          bound, idx := bound[idx := Str(update.avatarUrl.value)], idx + 1;
        } else if fields[i] == "bio" {
          bound, idx := bound[idx := Str(update.bio.value)], idx + 1;
        } else if fields[i] == "gender" {
          bound, idx := bound[idx := Num(update.gender.value)], idx + 1;
        }
      }
      assert values[..|fields|] == values;
    }

    static method BindRow(id: int, update: ProfileUpdate) returns (bound: map<int, Argument>, idx: int)
      ensures BoundTo(bound, InsertValues(id, update)) && idx == 6
    {
      hide BoundTo;
      idx := 1;
      bound := map[];
      ghost var row := InsertValues(id, update);
      NothingBound(row[..0]);
      BindPart(bound, row, 0);
      bound, idx := bound[idx := Num(id)], idx + 1;
      BindPart(bound, row, 1);
      bound, idx := bound[idx := Str(if update.nickname.Some? then update.nickname.value else "")], idx + 1;
      BindPart(bound, row, 2);
      bound, idx := bound[idx := Str(if update.avatarUrl.Some? then update.avatarUrl.value else "")], idx + 1;
      BindPart(bound, row, 3);
      bound, idx := bound[idx := Str(if update.bio.Some? then update.bio.value else "")], idx + 1;
      BindPart(bound, row, 4);
      bound, idx := bound[idx := Num(if update.gender.Some? then update.gender.value else 0)], idx + 1;
      assert row[..5] == row;
    }

    /** getUserInfoJsonFromDB: the user's row joined with its profile, if there is one; a
        column that is NULL, or has no row to come from, reads as empty. */
    method GetUserInfoJsonFromDB(id: int, connected: bool) returns (answer: Answer)
      ensures !connected ==> answer == Failed(DatabaseError)
      ensures connected && id !in users ==> answer == Failed(UserNotFound)
      ensures connected && id in users ==>
                && answer.Found?
                && answer.info.uuid == users[id].uuid && answer.info.username == users[id].username
                && answer.info.email == users[id].email && answer.info.createdAt == users[id].createdAt
      ensures connected && id in users && id !in profiles ==>
                && answer.info.nickname == answer.info.avatarUrl == answer.info.bio == "" && answer.info.gender == 0
      ensures connected && id in users && id in profiles ==>
                && (profiles[id].nickname == Some(answer.info.nickname)
                    || (profiles[id].nickname.None? && answer.info.nickname == ""))
                && (profiles[id].avatarUrl == Some(answer.info.avatarUrl)
                    || (profiles[id].avatarUrl.None? && answer.info.avatarUrl == ""))
                && (profiles[id].bio == Some(answer.info.bio)
                    || (profiles[id].bio.None? && answer.info.bio == ""))
                && answer.info.gender == profiles[id].gender
    {
      if !connected {
        return Failed(DatabaseError);
      }
      if id !in users {
        return Failed(UserNotFound);
      }
      var user := users[id];
      var joined := if id in profiles then Some(profiles[id]) else None;
      var nickname, avatarUrl, bio, gender := "", "", "", 0;
      if joined.Some? && joined.value.nickname.Some? {
        nickname := joined.value.nickname.value;
      }
      if joined.Some? && joined.value.avatarUrl.Some? {
        avatarUrl := joined.value.avatarUrl.value;
      }
      if joined.Some? && joined.value.bio.Some? {
        bio := joined.value.bio.value;
      }
      if joined.Some? {
        gender := joined.value.gender;
      }
      return Found(UserInfo(user.uuid, user.username, user.email, user.createdAt, nickname, avatarUrl, bio, gender));
    }

    /** getUserInfoJson; jitter is the random part of the lifetime of a cached document. */
    method GetUserInfoJson(id: int, now: int, jitter: nat, connected: bool) returns (answer: Answer)
      modifies `cache
      ensures redisConnected && connected ==>
                (State(users, profiles, cache), answer) == ReadInfo(State(users, profiles, old(cache)), id, jitter, now)
      ensures redisConnected && !connected ==>
                cache == old(cache) && answer == Or(Cached(cache, id, now), Failed(DatabaseError))
      ensures !redisConnected ==>
                && cache == old(cache)
                && answer == if connected then ReadTables(users, profiles, id) else Failed(DatabaseError)
    {
      var key := CacheKey(id);
      if redisConnected {
        var cached := Get(cache, key, now);
        if cached == Some(Text("null")) {
          return Failed(UserNotFound);
        }
        if cached.Some? && cached.value.Json? {
          return Found(cached.value.document);
        }
      }
      answer := GetUserInfoJsonFromDB(id, connected);
      if answer.Failed? {
        if answer.code == UserNotFound && redisConnected {
          cache := SetEx(cache, key, 60, Text("null"), now);
        }
        return;
      }
      if redisConnected {
        cache := SetEx(cache, key, 3600 + jitter, Json(answer.info), now);
      }
    }
  }

  /** The value of each present field stands at its place. */
  lemma FieldValue(update: ProfileUpdate, i: nat)
    requires i < |Fields(update)|
    ensures |Fields(update)| == |Values(update)|
    ensures var name, value := Fields(update)[i], Values(update)[i];
            || (name == "nickname" && update.nickname.Some? && value == Str(update.nickname.value))
            || (name == "avatar_url" && update.avatarUrl.Some? && value == Str(update.avatarUrl.value))
            || (name == "bio" && update.bio.Some? && value == Str(update.bio.value))
            || (name == "gender" && update.gender.Some? && value == Num(update.gender.value))
  {
  }
}
