/** The spelling rules of table and column names, and when the names of a migration clash under them.
    Models `words`, `snake` and `pluralize` of src/autoswe/pipeline/naming.py, `foreign_key` of
    src/autoswe/pipeline/relations.py and `table_name` of
    src/autoswe/llm/offline/templates_migrations.py. */
module Names {
  import opened Letters
  import opened Relations
  import opened CreationOrder
  import opened Migrations

  predicate IsLower(c: char) { 'a' <= c <= 'z' }

  predicate IsUpper(c: char) { 'A' <= c <= 'Z' }

  predicate IsDigit(c: char) { '0' <= c <= '9' }

  predicate Alnum(c: char) { IsLower(c) || IsUpper(c) || IsDigit(c) }

  /** A space before every capital that follows a small letter or a digit. */
  function Spaced(s: string): string {
    if |s| < 2 then s
    else if (IsLower(s[0]) || IsDigit(s[0])) && IsUpper(s[1]) then [s[0], ' '] + Spaced(s[1..])
    else [s[0]] + Spaced(s[1..])
  }

  /** How many letters and digits the text begins with. */
  function Leading(s: string): (n: nat)
    ensures n <= |s| && (forall i :: 0 <= i < n ==> Alnum(s[i])) && (n < |s| ==> !Alnum(s[n]))
  {
    if s == "" || !Alnum(s[0]) then 0 else 1 + Leading(s[1..])
  }

  /** The pieces between runs of other characters. */
  function Pieces(s: string): (ps: seq<string>)
    ensures forall i :: 0 <= i < |ps| ==> ps[i] != "" && forall j :: 0 <= j < |ps[i]| ==> Alnum(ps[i][j])
  {
    if s == "" then []
    else if !Alnum(s[0]) then Pieces(s[1..])
    else [s[..Leading(s)]] + Pieces(s[Leading(s)..])
  }

  function Words(value: string): seq<string> {
    var ps := Pieces(Spaced(value));
    seq(|ps|, i requires 0 <= i < |ps| => LowerAll(ps[i]))
  }

  function Joined(words: seq<string>): string {
    if words == [] then ""
    else if |words| == 1 then words[0]
    else words[0] + "_" + Joined(words[1..])
  }

  const KEYWORDS := {
    "and", "as", "assert", "async", "await", "break", "class", "continue", "def", "del", "elif", "else", "except",
    "finally", "for", "from", "global", "if", "import", "in", "is", "lambda", "nonlocal", "not", "or", "pass",
    "raise", "return", "try", "while", "with", "yield"}

  /** `snake` before a keyword gets its underscore. */
  function Plain(words: seq<string>): string {
    var result := if Joined(words) == "" then "item" else Joined(words);
    if IsDigit(result[0]) then "n_" + result else result
  }

  function Snake(value: string): string {
    var result := Plain(Words(value));
    if result in KEYWORDS then result + "_" else result
  }

  const UNCOUNTABLE := {"data", "news", "equipment", "information", "feedback", "inventory"}

  const IRREGULAR := map[
    "person" := "people", "child" := "children", "man" := "men", "woman" := "women", "mouse" := "mice",
    "goose" := "geese", "datum" := "data"]

  predicate EndsWith(s: string, ending: string) {
    |s| >= |ending| && s[|s| - |ending|..] == ending
  }

  function Pluralize(word: string): string {
    var lower := LowerAll(word);
    if lower in UNCOUNTABLE then word
    else if lower in IRREGULAR then IRREGULAR[lower]
    else if |lower| >= 2 && lower[|lower| - 1] == 'y' && lower[|lower| - 2] !in "aeiou" then word[..|word| - 1] + "ies"
    else if EndsWith(lower, "s") || EndsWith(lower, "x") || EndsWith(lower, "z") ||
      EndsWith(lower, "ch") || EndsWith(lower, "sh")
    then word + "es"
    else word + "s"
  }

  function TableName(entity: string): string {
    Snake(Pluralize(entity))
  }

  function ForeignKey(parent: string): string {
    Snake(parent) + "_id"
  }

  function Usual(): Naming {
    Naming((entity: string) => TableName(entity), (parent: string) => ForeignKey(parent))
  }

  // ------------------------------------------------------------------ names as lists of words

  /** No underscore inside. */
  ghost predicate Simple(words: seq<string>) {
    forall i :: 0 <= i < |words| ==> '_' !in words[i]
  }

  ghost predicate NoneEmpty(words: seq<string>) {
    forall i :: 0 <= i < |words| ==> words[i] != ""
  }

  lemma WordsAreSimple(value: string)
    ensures Simple(Words(value)) && NoneEmpty(Words(value))
  {
    var ps := Pieces(Spaced(value));
    forall i | 0 <= i < |ps|
      ensures '_' !in LowerAll(ps[i])
    {
      forall j | 0 <= j < |ps[i]| ensures LowerAll(ps[i])[j] != '_' { assert Alnum(ps[i][j]); }
    }
  }

  function Named(words: seq<string>): seq<string> {
    if words == [] then ["item"] else words
  }

  function Lettered(words: seq<string>): seq<string> {
    if Named(words)[0] != "" && IsDigit(Named(words)[0][0]) then ["n"] + Named(words) else Named(words)
  }

  /** The words a snake-case name is made of: a name without words is an item, one that begins with a
      digit gets an n in front, and a keyword an empty word at its end. */
  function Parts(value: string): (parts: seq<string>)
    ensures parts != []
  {
    var words := Lettered(Words(value));
    if Joined(words) in KEYWORDS then words + [""] else words
  }

  lemma {:induction false} JoinedConcat(a: seq<string>, b: seq<string>)
    requires a != [] && b != []
    ensures Joined(a + b) == Joined(a) + "_" + Joined(b)
    decreases |a|
  {
    assert (a + b)[0] == a[0] && (a + b)[1..] == a[1..] + b;
    if |a| > 1 {
      JoinedConcat(a[1..], b);
    } else {
      assert a[1..] + b == b;
    }
  }

  lemma FirstUnderscore(v: string, rest: string, s: string)
    requires '_' !in v && s == v + "_" + rest
    ensures |v| < |s| && s[|v|] == '_' && s[..|v|] == v && s[|v| + 1..] == rest
    ensures forall i :: 0 <= i < |v| ==> s[i] != '_'
  {
    forall i | 0 <= i < |v| ensures s[i] != '_' { assert s[i] == v[i]; }
  }

  lemma SameFirstWord(v: string, rest: string, w: string, more: string)
    requires '_' !in v && '_' !in w && v + "_" + rest == w + "_" + more
    ensures v == w && rest == more
  {
    var s := v + "_" + rest;
    FirstUnderscore(v, rest, s);
    FirstUnderscore(w, more, s);
    assert |v| == |w|;
  }

  lemma OneWordIsNotTwo(v: string, words: seq<string>)
    requires '_' !in v && |words| > 1
    ensures v != Joined(words)
  {
    assert Joined(words)[|words[0]|] == '_';
  }

  /** Joined by underscores, words without underscores can be told apart again. */
  lemma {:induction false} JoinedInjective(a: seq<string>, b: seq<string>)
    requires Simple(a) && Simple(b) && a != [] && b != []
    ensures Joined(a) == Joined(b) ==> a == b
    decreases |a|
  {
    if |a| == 1 && |b| > 1 {
      OneWordIsNotTwo(a[0], b);
    } else if |b| == 1 && |a| > 1 {
      OneWordIsNotTwo(b[0], a);
    } else if |a| > 1 && |b| > 1 && Joined(a) == Joined(b) {
      SameFirstWord(a[0], Joined(a[1..]), b[0], Joined(b[1..]));
      JoinedInjective(a[1..], b[1..]);
      assert a == [a[0]] + a[1..] && b == [b[0]] + b[1..];
    }
  }

  lemma JoinedStarts(words: seq<string>)
    requires words != [] && words[0] != ""
    ensures Joined(words) != "" && Joined(words)[0] == words[0][0]
  {
  }

  lemma NamedIsJoined(words: seq<string>)
    requires Simple(words) && NoneEmpty(words)
    ensures (if Joined(words) == "" then "item" else Joined(words)) == Joined(Named(words))
    ensures Simple(Named(words)) && Named(words)[0] != ""
  {
    if words != [] { JoinedStarts(words); }
  }

  lemma PlainIsJoined(words: seq<string>)
    requires Simple(words) && NoneEmpty(words)
    ensures Plain(words) == Joined(Lettered(words)) && Simple(Lettered(words))
  {
    var named := Named(words);
    NamedIsJoined(words);
    JoinedStarts(named);
    JoinedConcat(["n"], named);
    assert Joined(["n"]) + "_" == "n_";
  }

  lemma SnakeIsJoined(value: string)
    ensures Snake(value) == Joined(Parts(value)) && Simple(Parts(value))
  {
    var words := Words(value);
    WordsAreSimple(value);
    PlainIsJoined(words);
    JoinedConcat(Lettered(words), [""]);
  }

  // ------------------------------------------------------------------ when names clash

  /** Two names have the same snake-case form exactly when they are made of the same words. */
  lemma SnakeClash(a: string, b: string)
    ensures Snake(a) == Snake(b) <==> Parts(a) == Parts(b)
  {
    SnakeIsJoined(a);
    SnakeIsJoined(b);
    JoinedInjective(Parts(a), Parts(b));
  }

  function IndexWords(entity: string, parent: string): seq<string> {
    Parts(Pluralize(entity)) + Parts(parent)
  }

  lemma IndexIsJoined(entity: string, parent: string)
    ensures IndexName(Usual(), TableName(entity), parent) == "ix_" + Joined(IndexWords(entity, parent)) + "_id"
    ensures Simple(IndexWords(entity, parent))
  {
    SnakeIsJoined(Pluralize(entity));
    SnakeIsJoined(parent);
    JoinedConcat(Parts(Pluralize(entity)), Parts(parent));
    var t, p := TableName(entity), Snake(parent);
    assert "ix_" + t + "_" + (p + "_id") == "ix_" + (t + "_" + p) + "_id";
  }

  lemma Wrapped(x: string, y: string)
    ensures "ix_" + x + "_id" == "ix_" + y + "_id" <==> x == y
  {
    var a, b := "ix_" + x + "_id", "ix_" + y + "_id";
    if a == b {
      assert |x| == |y|;
      assert x == a[3..3 + |x|] && y == b[3..3 + |x|];
    }
  }

  /** Two foreign keys get the same index name exactly when the words of table and parent, taken
      together, are the same, however they are divided between the two. */
  lemma IndexesClash(e: string, p: string, f: string, q: string)
    ensures IndexName(Usual(), TableName(e), p) == IndexName(Usual(), TableName(f), q)
      <==> IndexWords(e, p) == IndexWords(f, q)
  {
    IndexIsJoined(e, p);
    IndexIsJoined(f, q);
    Wrapped(Joined(IndexWords(e, p)), Joined(IndexWords(f, q)));
    JoinedInjective(IndexWords(e, p), IndexWords(f, q));
  }

  // ------------------------------------------------------------------ the upgrade's condition, in words

  ghost predicate Different(s: seq<seq<string>>) {
    forall i, j :: 0 <= i < j < |s| ==> s[i] != s[j]
  }

  ghost function TableWords(order: seq<Entity>): seq<seq<string>> {
    seq(|order|, i requires 0 <= i < |order| => Parts(Pluralize(order[i].name)))
  }

  ghost function KeyWords(entity: string, parents: seq<string>): seq<seq<string>> {
    seq(|parents|, i requires 0 <= i < |parents| => IndexWords(entity, parents[i]))
  }

  ghost function AllIndexWords(known: set<string>, order: seq<Entity>): seq<seq<string>> {
    if order == [] then []
    else
      var e := order[|order| - 1];
      AllIndexWords(known, order[..|order| - 1]) + KeyWords(e.name, KnownParents(known, e.belongsTo))
  }

  lemma SameClashes(names: seq<string>, words: seq<seq<string>>)
    requires |names| == |words|
    requires forall i, j :: 0 <= i < j < |names| ==> (names[i] == names[j] <==> words[i] == words[j])
    ensures Distinct(names) <==> Different(words)
  {
  }

  lemma TableAt(order: seq<Entity>, i: nat)
    requires i < |order|
    ensures TableNames(Usual(), order)[i] == Snake(Pluralize(order[i].name))
  {
  }

  lemma TablesInWords(order: seq<Entity>)
    ensures Distinct(TableNames(Usual(), order)) <==> Different(TableWords(order))
  {
    var names, words := TableNames(Usual(), order), TableWords(order);
    forall i, j | 0 <= i < j < |names|
      ensures names[i] == names[j] <==> words[i] == words[j]
    {
      TableAt(order, i);
      TableAt(order, j);
      SnakeClash(Pluralize(order[i].name), Pluralize(order[j].name));
    }
    SameClashes(names, words);
  }

  /** `names` are the index names of these words. */
  ghost predicate Spelled(names: seq<string>, words: seq<seq<string>>) {
    && |names| == |words|
    && forall i :: 0 <= i < |names| ==>
        words[i] != [] && Simple(words[i]) && names[i] == "ix_" + Joined(words[i]) + "_id"
  }

  lemma SpelledApart(names: seq<string>, words: seq<seq<string>>)
    requires Spelled(names, words)
    ensures Distinct(names) <==> Different(words)
  {
    forall i, j | 0 <= i < j < |names|
      ensures names[i] == names[j] <==> words[i] == words[j]
    {
      Wrapped(Joined(words[i]), Joined(words[j]));
      JoinedInjective(words[i], words[j]);
    }
    SameClashes(names, words);
  }

  lemma {:induction false} IndexesAreSpelled(known: set<string>, order: seq<Entity>)
    ensures Spelled(AllIndexNames(Usual(), known, order), AllIndexWords(known, order))
  {
    if order != [] {
      var e := order[|order| - 1];
      var parents := KnownParents(known, e.belongsTo);
      IndexesAreSpelled(known, order[..|order| - 1]);
      forall i | 0 <= i < |parents|
        ensures KeyWords(e.name, parents)[i] != [] && Simple(KeyWords(e.name, parents)[i])
        ensures IndexNames(Usual(), Usual().table(e.name), parents)[i]
          == "ix_" + Joined(KeyWords(e.name, parents)[i]) + "_id"
      {
        IndexIsJoined(e.name, parents[i]);
      }
      SpelledConcat(AllIndexNames(Usual(), known, order[..|order| - 1]), AllIndexWords(known, order[..|order| - 1]),
                    IndexNames(Usual(), Usual().table(e.name), parents), KeyWords(e.name, parents));
    }
  }

  lemma SpelledConcat(a: seq<string>, x: seq<seq<string>>, b: seq<string>, y: seq<seq<string>>)
    requires Spelled(a, x) && Spelled(b, y)
    ensures Spelled(a + b, x + y)
  {
  }

  /** With the real spelling rules the upgrade succeeds if and only if no two entities are made of the
      same words, no two foreign keys are made of the same words of table and parent together, and
      no table repeats a column. */
  lemma WellNamedInWords(known: set<string>, order: seq<Entity>)
    ensures WellNamed(Usual(), known, order) <==>
      && Different(TableWords(order)) && Different(AllIndexWords(known, order))
      && forall e :: e in order ==> Distinct(ColumnNames(TableOf(Usual(), known, e).columns))
  {
    WellNamedMeansDistinct(Usual(), known, order);
    TablesInWords(order);
    IndexesAreSpelled(known, order);
    SpelledApart(AllIndexNames(Usual(), known, order), AllIndexWords(known, order));
  }

  // ------------------------------------------------------------------ names in PascalCase

  /** Letters and digits without a boundary inside. */
  predicate Hump(w: string) {
    && w != "" && (forall i :: 0 <= i < |w| ==> Alnum(w[i]))
    && forall i :: 0 <= i < |w| - 1 ==> !((IsLower(w[i]) || IsDigit(w[i])) && IsUpper(w[i + 1]))
  }

  lemma HumpTail(w: string)
    requires Hump(w) && |w| > 1
    ensures Hump(w[1..])
  {
    forall i | 0 <= i < |w[1..]| - 1
      ensures !((IsLower(w[1..][i]) || IsDigit(w[1..][i])) && IsUpper(w[1..][i + 1]))
    {
      assert w[1..][i] == w[i + 1] && w[1..][i + 1] == w[i + 2];
    }
  }

  lemma {:induction false} SpacedHump(w: string)
    requires Hump(w)
    ensures Spaced(w) == w
  {
    if |w| > 1 {
      HumpTail(w);
      SpacedHump(w[1..]);
    }
  }

  lemma SpacedStep(s: string, tail: string)
    requires |s| > 1 && Spaced(s[1..]) == tail
    ensures Spaced(s) ==
      if (IsLower(s[0]) || IsDigit(s[0])) && IsUpper(s[1]) then [s[0]] + (" " + tail) else [s[0]] + tail
  {
  }

  lemma {:induction false} SpacedTwo(v: string, w: string, s: string)
    requires Hump(v) && Hump(w) && (IsLower(v[|v| - 1]) || IsDigit(v[|v| - 1])) && IsUpper(w[0]) && s == v + w
    ensures Spaced(s) == v + (" " + w)
    decreases |v|
  {
    if |v| == 1 {
      SpacedHump(w);
      assert s[0] == v[0] && s[1..] == w && s[1] == w[0];
      SpacedStep(s, w);
      assert [v[0]] == v;
    } else {
      var rest := v[1..];
      HumpTail(v);
      assert s[0] == v[0] && s[1] == v[1] && s[1..] == rest + w && rest[|rest| - 1] == v[|v| - 1];
      SpacedTwo(rest, w, s[1..]);
      SpacedStep(s, rest + (" " + w));
      assert v == [v[0]] + rest;
    }
  }

  lemma OneHump(w: string)
    requires Hump(w)
    ensures Words(w) == [LowerAll(w)]
  {
    SpacedHump(w);
    OnePiece(w, "");
    assert w + "" == w;
  }

  lemma {:induction false} LeadingOf(w: string, rest: string)
    requires (forall i :: 0 <= i < |w| ==> Alnum(w[i])) && (rest == "" || !Alnum(rest[0]))
    ensures Leading(w + rest) == |w|
  {
    if w != "" {
      assert (w + rest)[0] == w[0] && (w + rest)[1..] == w[1..] + rest;
      LeadingOf(w[1..], rest);
    } else {
      assert w + rest == rest;
    }
  }

  lemma OnePiece(w: string, rest: string)
    requires Hump(w) && (rest == "" || !Alnum(rest[0]))
    ensures Pieces(w + rest) == [w] + Pieces(rest)
  {
    LeadingOf(w, rest);
    assert (w + rest)[0] == w[0] && (w + rest)[..|w|] == w && (w + rest)[|w|..] == rest;
  }

  lemma TwoHumps(v: string, w: string, value: string)
    requires Hump(v) && Hump(w) && (IsLower(v[|v| - 1]) || IsDigit(v[|v| - 1])) && IsUpper(w[0]) && value == v + w
    ensures Words(value) == [LowerAll(v), LowerAll(w)]
  {
    SpacedTwo(v, w, value);
    OnePiece(v, " " + w);
    assert (" " + w)[1..] == w && w + "" == w;
    OnePiece(w, "");
    assert Pieces(" " + w) == Pieces(w);
  }

  lemma SnakeOfTwo(v: string, w: string, value: string, snake: string)
    requires Hump(v) && Hump(w) && IsLower(v[|v| - 1]) && IsUpper(w[0]) && value == v + w
    requires snake == LowerAll(v) + "_" + LowerAll(w) && snake !in KEYWORDS && !IsDigit(LowerAll(v)[0])
    ensures Snake(value) == snake
  {
    TwoHumps(v, w, value);
    assert [LowerAll(v), LowerAll(w)][1..] == [LowerAll(w)];
    assert Joined(Words(value)) == snake;
  }

  lemma SnakeOfOne(w: string, snake: string)
    requires Hump(w) && snake == LowerAll(w) && snake !in KEYWORDS && !IsDigit(snake[0])
    ensures Snake(w) == snake
  {
    OneHump(w);
    assert Joined(Words(w)) == snake;
  }

  // ------------------------------------------------------------------ the failures, with the real names

  lemma LastOfEnding(s: string, ending: string)
    requires ending != "" && EndsWith(s, ending)
    ensures s[|s| - 1] == ending[|ending| - 1]
  {
    assert s[|s| - |ending|..][|ending| - 1] == s[|s| - 1];
  }

  lemma OtherEnding(s: string, ending: string)
    requires ending != "" && s != "" && s[|s| - 1] != ending[|ending| - 1]
    ensures !EndsWith(s, ending)
  {
    if EndsWith(s, ending) { LastOfEnding(s, ending); }
  }

  lemma PluralsWithS(word: string, lower: string, last: char)
    requires lower == LowerAll(word) && lower != "" && lower !in UNCOUNTABLE && lower !in IRREGULAR
    requires last == lower[|lower| - 1] && last != 'y' && last != 's' && last != 'x' && last != 'z' && last != 'h'
    ensures Pluralize(word) == word + "s"
  {
    OtherEnding(lower, "s");
    OtherEnding(lower, "x");
    OtherEnding(lower, "z");
    OtherEnding(lower, "ch");
    OtherEnding(lower, "sh");
  }

  /** One capitalised word and its lower-case form. */
  predicate Camel(w: string, lower: string) {
    Hump(w) && lower == LowerAll(w) && IsUpper(w[0]) && IsLower(w[|w| - 1])
  }

  lemma TableFromPlural(entity: string, plural: string, v: string, w: string, x: string, y: string, table: string)
    requires Pluralize(entity) == plural && plural == v + w && Camel(v, x) && Camel(w, y)
    requires table == x + "_" + y && |table| > 8
    ensures TableName(entity) == table
  {
    LongIsNoKeyword(table);
    SnakeOfTwo(v, w, plural, table);
  }

  lemma TableOfOne(entity: string, lower: string, last: char, plural: string, table: string)
    requires lower == LowerAll(entity) && lower != "" && lower !in UNCOUNTABLE && lower !in IRREGULAR
    requires last == lower[|lower| - 1] && last != 'y' && last != 's' && last != 'x' && last != 'z' && last != 'h'
    requires plural == entity + "s" && Hump(plural) && table == LowerAll(plural)
    requires table !in KEYWORDS && !IsDigit(table[0])
    ensures TableName(entity) == table
  {
    PluralsWithS(entity, lower, last);
    SnakeOfOne(plural, table);
  }

  lemma LongIsNoKeyword(s: string)
    requires |s| > 8
    ensures s !in KEYWORDS
  {
  }

  lemma Regular(lower: string)
    requires lower == "role" || lower == "groupsrole" || lower == "user"
      || lower == "usersgroup" || lower == "dropindex"
    ensures lower !in UNCOUNTABLE && lower !in IRREGULAR
  {
  }

  lemma NoKeywords()
    ensures "role" !in KEYWORDS && "roles" !in KEYWORDS && "users" !in KEYWORDS
  {
  }

  lemma RoleTable()
    ensures TableName("Role") == "roles"
  {
    Regular("role");
    NoKeywords();
    TableOfOne("Role", "role", 'e', "Roles", "roles");
  }

  lemma KeyIs(parent: string, snake: string, key: string)
    requires Snake(parent) == snake && key == snake + "_id"
    ensures ForeignKey(parent) == key
  {
  }

  lemma RoleSnake()
    ensures Snake("Role") == "role"
  {
    NoKeywords();
    SnakeOfOne("Role", "role");
  }

  lemma RoleKey()
    ensures ForeignKey("Role") == "role_id"
  {
    RoleSnake();
    KeyIs("Role", "role", "role_id");
  }

  lemma UserTable()
    ensures TableName("User") == "users"
  {
    Regular("user");
    NoKeywords();
    TableOfOne("User", "user", 'r', "Users", "users");
  }

  lemma GroupWords()
    ensures Camel("Users", "users") && Camel("Groups", "groups")
  {
  }

  lemma RoleWords()
    ensures Camel("Roles", "roles") && Camel("Role", "role")
  {
  }

  lemma DropWords()
    ensures Camel("Drop", "drop") && Camel("Indexes", "indexes")
  {
  }

  lemma GroupsRolePlural()
    ensures Pluralize("GroupsRole") == "GroupsRoles"
  {
    Regular("groupsrole");
    PluralsWithS("GroupsRole", "groupsrole", 'e');
    assert "GroupsRole" + "s" == "GroupsRoles";
  }

  lemma UsersGroupPlural()
    ensures Pluralize("UsersGroup") == "UsersGroups"
  {
    Regular("usersgroup");
    PluralsWithS("UsersGroup", "usersgroup", 'p');
    assert "UsersGroup" + "s" == "UsersGroups";
  }

  lemma GroupsRoleTable()
    ensures TableName("GroupsRole") == "groups_roles"
  {
    GroupsRolePlural();
    GroupWords();
    RoleWords();
    assert "Groups" + "Roles" == "GroupsRoles" && "groups" + "_" + "roles" == "groups_roles";
    TableFromPlural("GroupsRole", "GroupsRoles", "Groups", "Roles", "groups", "roles", "groups_roles");
  }

  lemma KeyOfTwo(parent: string, v: string, w: string, x: string, y: string, snake: string, key: string)
    requires parent == v + w && Camel(v, x) && Camel(w, y)
    requires snake == x + "_" + y && |snake| > 8 && key == snake + "_id"
    ensures ForeignKey(parent) == key
  {
    LongIsNoKeyword(snake);
    SnakeOfTwo(v, w, parent, snake);
  }

  lemma GroupsRoleKey()
    ensures ForeignKey("GroupsRole") == "groups_role_id"
  {
    GroupWords();
    RoleWords();
    assert "Groups" + "Role" == "GroupsRole" && "groups" + "_" + "role" == "groups_role";
    assert "groups_role" + "_id" == "groups_role_id";
    KeyOfTwo("GroupsRole", "Groups", "Role", "groups", "role", "groups_role", "groups_role_id");
  }

  lemma UsersGroupTable()
    ensures TableName("UsersGroup") == "users_groups"
  {
    UsersGroupPlural();
    GroupWords();
    assert "Users" + "Groups" == "UsersGroups" && "users" + "_" + "groups" == "users_groups";
    TableFromPlural("UsersGroup", "UsersGroups", "Users", "Groups", "users", "groups", "users_groups");
  }

  lemma DropIndexPlural(word: string)
    requires word == "DropIndex"
    ensures Pluralize(word) == "DropIndexes"
  {
    Regular("dropindex");
    assert LowerAll(word) == "dropindex";
    assert EndsWith("dropindex", "x");
  }

  lemma DropIndexTable()
    ensures TableName("DropIndex") == "drop_indexes"
  {
    DropIndexPlural("DropIndex");
    DropWords();
    assert "Drop" + "Indexes" == "DropIndexes" && "drop" + "_" + "indexes" == "drop_indexes";
    TableFromPlural("DropIndex", "DropIndexes", "Drop", "Indexes", "drop", "indexes", "drop_indexes");
  }

  /** With the real spelling rules a valid specification of four entities has a migration that the
      database rejects, and one of a single entity a migration that cannot be undone. */
  lemma RealNamesFail()
    ensures var es := ClashingEntities();
      && DistinctNames(es) && Acyclic(GraphOf(es)) && Distinct(TableNames(Usual(), es))
      && Run(Upgrade(Usual(), NamesOf(es), KnownOrder(es)), EMPTY).None?
    ensures var e := Entity("DropIndex", [], []); var known := {"DropIndex"};
      && WellNamed(Usual(), known, [e])
      && Run(Upgrade(Usual(), known, [e]) + Downgrade(Usual(), known, [e]), EMPTY).None?
  {
    RoleTable();
    RoleKey();
    UserTable();
    GroupsRoleTable();
    GroupsRoleKey();
    UsersGroupTable();
    DropIndexTable();
    IndexNamesCanCollide(Usual());
    DropIndexEntityBreaksDowngrade(Usual());
  }
}
