/** The initial migration as a schema compiler: an upgrade and a downgrade program, and a database
    that runs them. Models `render_initial_migration` of src/autoswe/llm/offline/templates_migrations.py. */
module Migrations {
  import opened Options
  import opened Relations
  import opened CreationOrder

  /** `table_name` and `foreign_key`; `Names.Usual` has their spelling rules. */
  datatype Naming = Naming(table: string -> string, foreignKey: string -> string)

  datatype Column = Column(name: string, nullable: bool)

  datatype Reference = Reference(column: string, table: string)

  datatype Op =
    | CreateTable(table: string, columns: seq<Column>, references: seq<Reference>)
    | CreateIndex(index: string, table: string, column: string)
    | DropIndex(index: string, table: string)
    | DropTable(table: string)

  // ------------------------------------------------------------------ the database

  datatype Table = Table(columns: seq<Column>, references: seq<Reference>)

  datatype Index = Index(table: string, column: string)

  datatype Schema = Schema(tables: map<string, Table>, indexes: map<string, Index>)

  const EMPTY := Schema(map[], map[])

  function ColumnNames(columns: seq<Column>): seq<string> {
    seq(|columns|, i requires 0 <= i < |columns| => columns[i].name)
  }

  ghost predicate Referenced(s: Schema, table: string) {
    exists t, r :: t in s.tables && t != table && r in s.tables[t].references && r.table == table
  }

  ghost predicate CanApply(op: Op, s: Schema) {
    match op
    case CreateTable(t, columns, references) =>
      && t !in s.tables && Distinct(ColumnNames(columns))
      && forall r :: r in references ==> r.table in s.tables && r.column in ColumnNames(columns)
    case CreateIndex(i, t, c) => i !in s.indexes && t in s.tables && c in ColumnNames(s.tables[t].columns)
    case DropIndex(i, t) => i in s.indexes && s.indexes[i].table == t
    case DropTable(t) => t in s.tables && !Referenced(s, t)
  }

  function Effect(op: Op, s: Schema): Schema {
    match op
    case CreateTable(t, columns, references) => s.(tables := s.tables[t := Table(columns, references)])
    case CreateIndex(i, t, c) => s.(indexes := s.indexes[i := Index(t, c)])
    case DropIndex(i, t) => s.(indexes := s.indexes - {i})
    case DropTable(t) =>
      Schema(s.tables - {t}, map i | i in s.indexes && s.indexes[i].table != t :: s.indexes[i])
  }

  /** Runs the statements in order; a statement the database rejects aborts the run. */
  ghost function Run(ops: seq<Op>, s: Schema): Option<Schema> {
    if ops == [] then Some(s)
    else if CanApply(ops[0], s) then Run(ops[1..], Effect(ops[0], s))
    else None
  }

  lemma {:induction false} RunConcat(a: seq<Op>, b: seq<Op>, s: Schema)
    ensures Run(a + b, s) == if Run(a, s).Some? then Run(b, Run(a, s).value) else None
    decreases |a|
  {
    if a == [] {
      assert a + b == b;
    } else {
      assert (a + b)[1..] == a[1..] + b;
      if CanApply(a[0], s) { RunConcat(a[1..], b, Effect(a[0], s)); }
    }
  }

  // ------------------------------------------------------------------ the compiler

  function KnownParents(known: set<string>, parents: seq<string>): seq<string> {
    if parents == [] then []
    else
      var init, p := parents[..|parents| - 1], parents[|parents| - 1];
      if p in known then KnownParents(known, init) + [p] else KnownParents(known, init)
  }

  function ForeignKeys(n: Naming, parents: seq<string>): seq<Column> {
    seq(|parents|, i requires 0 <= i < |parents| => Column(n.foreignKey(parents[i]), false))
  }

  function FieldColumns(fields: seq<Field>): seq<Column> {
    seq(|fields|, i requires 0 <= i < |fields| => Column(fields[i].name, !fields[i].required))
  }

  function TableColumns(n: Naming, e: Entity, parents: seq<string>): seq<Column> {
    [Column("id", false)] + FieldColumns(e.fields) + ForeignKeys(n, parents) + [Column("created_at", false)]
  }

  function References(n: Naming, parents: seq<string>): seq<Reference> {
    seq(|parents|, i requires 0 <= i < |parents| => Reference(n.foreignKey(parents[i]), n.table(parents[i])))
  }

  function IndexName(n: Naming, table: string, parent: string): string {
    "ix_" + table + "_" + n.foreignKey(parent)
  }

  function CreateIndexes(n: Naming, table: string, parents: seq<string>): seq<Op> {
    seq(|parents|, i requires 0 <= i < |parents| =>
      CreateIndex(IndexName(n, table, parents[i]), table, n.foreignKey(parents[i])))
  }

  function Creates(n: Naming, known: set<string>, e: Entity): seq<Op> {
    var table, parents := n.table(e.name), KnownParents(known, e.belongsTo);
    [CreateTable(table, TableColumns(n, e, parents), References(n, parents))] + CreateIndexes(n, table, parents)
  }

  function Upgrade(n: Naming, known: set<string>, order: seq<Entity>): seq<Op> {
    if order == [] then []
    else Upgrade(n, known, order[..|order| - 1]) + Creates(n, known, order[|order| - 1])
  }

  /** `insert(0, ...)` for each parent: the last parent's index comes first. */
  function DropIndexes(n: Naming, table: string, parents: seq<string>): seq<Op> {
    if parents == [] then []
    else
      var init, p := parents[..|parents| - 1], parents[|parents| - 1];
      [DropIndex(IndexName(n, table, p), table)] + DropIndexes(n, table, init)
  }

  function AllDropIndexes(n: Naming, known: set<string>, order: seq<Entity>): seq<Op> {
    if order == [] then []
    else
      var e := order[|order| - 1];
      DropIndexes(n, n.table(e.name), KnownParents(known, e.belongsTo)) +
      AllDropIndexes(n, known, order[..|order| - 1])
  }

  function AllDropTables(n: Naming, order: seq<Entity>): seq<Op> {
    seq(|order|, i requires 0 <= i < |order| => DropTable(n.table(order[i].name)))
  }

  /** The statement as it is written into the migration file. */
  function Line(op: Op): string {
    match op
    case DropIndex(i, t) => "    op.drop_index(\"" + i + "\", table_name=\"" + t + "\")"
    case DropTable(t) => "    op.drop_table(\"" + t + "\")"
    case CreateTable(t, _, _) => "    op.create_table(\n        \"" + t + "\","
    case CreateIndex(i, t, c) => "    op.create_index(\"" + i + "\", \"" + t + "\", [\"" + c + "\"])"
  }

  predicate OccursAt(s: string, word: string, i: int) {
    0 <= i <= |s| - |word| && s[i..i + |word|] == word
  }

  predicate Contains(s: string, word: string) {
    exists i :: 0 <= i <= |s| && OccursAt(s, word, i)
  }

  function Mentioning(word: string, ops: seq<Op>): seq<Op> {
    if ops == [] then []
    else if Contains(Line(ops[0]), word) then [ops[0]] + Mentioning(word, ops[1..])
    else Mentioning(word, ops[1..])
  }

  function Reversed(ops: seq<Op>): seq<Op> {
    if ops == [] then [] else Reversed(ops[1..]) + [ops[0]]
  }

  function DowngradeLines(n: Naming, known: set<string>, order: seq<Entity>): seq<Op> {
    AllDropIndexes(n, known, order) + AllDropTables(n, order)
  }

  /** The lines are told apart by their text, indexes first, tables in reverse. */
  function Downgrade(n: Naming, known: set<string>, order: seq<Entity>): seq<Op> {
    var lines := DowngradeLines(n, known, order);
    Mentioning("drop_index", lines) + Reversed(Mentioning("drop_table", lines))
  }

  datatype Migration = Migration(upgrade: seq<Op>, downgrade: seq<Op>) | NoOrder

  lemma DowngradeLinesStep(n: Naming, known: set<string>, order: seq<Entity>, i: nat, dropIndexes: seq<Op>)
    requires i < |order|
    requires dropIndexes == DropIndexes(n, n.table(order[i].name), KnownParents(known, order[i].belongsTo))
    ensures DowngradeLines(n, known, order[..i + 1]) ==
      dropIndexes + DowngradeLines(n, known, order[..i]) + [DropTable(n.table(order[i].name))]
  {
    assert order[..i + 1][..i] == order[..i];
    assert AllDropTables(n, order[..i + 1]) == AllDropTables(n, order[..i]) + [DropTable(n.table(order[i].name))];
  }

  method RenderInitialMigration(n: Naming, entities: seq<Entity>) returns (m: Migration)
    ensures m.NoOrder? <==> !Acyclic(GraphOf(LastOfEachName(entities)))
    ensures var known, order := NamesOf(entities), KnownOrder(entities);
      m.Migration? ==> m.upgrade == Upgrade(n, known, order) && m.downgrade == Downgrade(n, known, order)
  {
    CreationOrderIsTopological(entities);
    var ordering := InOrder(entities);
    if ordering.Cycle? { return NoOrder; }
    var upgrade, downgrade := RenderOrdered(n, NamesOf(entities), ordering.entities);
    return Migration(upgrade, downgrade);
  }

  method RenderOrdered(n: Naming, known: set<string>, order: seq<Entity>)
    returns (upgrade: seq<Op>, downgrade: seq<Op>)
    ensures upgrade == Upgrade(n, known, order) && downgrade == Downgrade(n, known, order)
  {
    upgrade, downgrade := [], [];
    for i := 0 to |order|
      invariant upgrade == Upgrade(n, known, order[..i])
      invariant downgrade == DowngradeLines(n, known, order[..i])
    {
      assert order[..i + 1][..i] == order[..i];
      var dropIndexes;
      upgrade, dropIndexes := RenderEntity(n, known, order[i], upgrade);
      DowngradeLinesStep(n, known, order, i, dropIndexes);
      downgrade := dropIndexes + downgrade + [DropTable(n.table(order[i].name))];
    }
    assert order[..|order|] == order;
    var tables, indexes := Mentioning("drop_table", downgrade), Mentioning("drop_index", downgrade);
    downgrade := indexes + Reversed(tables);
  }

  method RenderEntity(n: Naming, known: set<string>, e: Entity, before: seq<Op>)
    returns (upgrade: seq<Op>, dropIndexes: seq<Op>)
    ensures upgrade == before + Creates(n, known, e)
    ensures dropIndexes == DropIndexes(n, n.table(e.name), KnownParents(known, e.belongsTo))
  {
    var table, parents := n.table(e.name), KnownParents(known, e.belongsTo);
    var head := [CreateTable(table, TableColumns(n, e, parents), References(n, parents))];
    upgrade, dropIndexes := before + head, [];
    for j := 0 to |parents|
      invariant upgrade == before + head + CreateIndexes(n, table, parents[..j])
      invariant dropIndexes == DropIndexes(n, table, parents[..j])
    {
      assert parents[..j + 1][..j] == parents[..j];
      var index := IndexName(n, table, parents[j]);
      upgrade := upgrade + [CreateIndex(index, table, n.foreignKey(parents[j]))];
      dropIndexes := [DropIndex(index, table)] + dropIndexes;
    }
    assert parents[..|parents|] == parents;
  }

  // ------------------------------------------------------------------ the schema it should build

  ghost function WithIndexes(n: Naming, table: string, parents: seq<string>,
    indexes: map<string, Index>): map<string, Index> {
    if parents == [] then indexes
    else
      var init, p := parents[..|parents| - 1], parents[|parents| - 1];
      WithIndexes(n, table, init, indexes)[IndexName(n, table, p) := Index(table, n.foreignKey(p))]
  }

  ghost function TableOf(n: Naming, known: set<string>, e: Entity): Table {
    var parents := KnownParents(known, e.belongsTo);
    Table(TableColumns(n, e, parents), References(n, parents))
  }

  /** Every entity's table, and an index for each of its foreign keys. */
  ghost function SchemaOf(n: Naming, known: set<string>, order: seq<Entity>): Schema {
    if order == [] then EMPTY
    else
      var before, e := SchemaOf(n, known, order[..|order| - 1]), order[|order| - 1];
      Schema(before.tables[n.table(e.name) := TableOf(n, known, e)],
             WithIndexes(n, n.table(e.name), KnownParents(known, e.belongsTo), before.indexes))
  }

  /** `parents` add index names that are new and distinct. */
  ghost predicate FreshIndexes(n: Naming, table: string, parents: seq<string>, taken: set<string>) {
    forall i :: 0 <= i < |parents| ==>
      IndexName(n, table, parents[i]) !in taken &&
      forall j :: 0 <= j < i ==> IndexName(n, table, parents[i]) != IndexName(n, table, parents[j])
  }

  /** No two tables, no two indexes and no two columns of a table share a name. */
  ghost predicate WellNamed(n: Naming, known: set<string>, order: seq<Entity>) {
    order == [] ||
    (var init, e := order[..|order| - 1], order[|order| - 1];
     && WellNamed(n, known, init)
     && n.table(e.name) !in SchemaOf(n, known, init).tables
     && Distinct(ColumnNames(TableOf(n, known, e).columns))
     && FreshIndexes(n, n.table(e.name), KnownParents(known, e.belongsTo), SchemaOf(n, known, init).indexes.Keys))
  }

  lemma {:induction false} KnownParentsMembers(known: set<string>, parents: seq<string>)
    ensures forall p :: p in KnownParents(known, parents) <==> p in parents && p in known
  {
    if parents != [] {
      KnownParentsMembers(known, parents[..|parents| - 1]);
      assert parents == parents[..|parents| - 1] + [parents[|parents| - 1]];
    }
  }

  lemma {:induction false} TablesOf(n: Naming, known: set<string>, order: seq<Entity>)
    ensures forall e :: e in order ==> n.table(e.name) in SchemaOf(n, known, order).tables
    ensures forall t :: t in SchemaOf(n, known, order).tables ==> exists e :: e in order && n.table(e.name) == t
  {
    if order != [] {
      var init, e := order[..|order| - 1], order[|order| - 1];
      TablesOf(n, known, init);
      assert order == init + [e];
    }
  }

  lemma ForeignKeyIsColumn(n: Naming, e: Entity, parents: seq<string>, p: string)
    requires p in parents
    ensures n.foreignKey(p) in ColumnNames(TableColumns(n, e, parents))
  {
    var i :| 0 <= i < |parents| && parents[i] == p;
    assert TableColumns(n, e, parents)[1 + |e.fields| + i] == ForeignKeys(n, parents)[i];
    assert ColumnNames(TableColumns(n, e, parents))[1 + |e.fields| + i] == n.foreignKey(p);
  }

  /** Creating an entity's indexes succeeds exactly when their names are fresh and distinct. */
  lemma {:induction false} RunCreateIndexes(n: Naming, e: Entity, table: string, parents: seq<string>, k: nat,
                                            s: Schema)
    requires k <= |parents| && table in s.tables && s.tables[table].columns == TableColumns(n, e, parents)
    ensures Run(CreateIndexes(n, table, parents[..k]), s) ==
      if FreshIndexes(n, table, parents[..k], s.indexes.Keys)
      then Some(s.(indexes := WithIndexes(n, table, parents[..k], s.indexes))) else None
    ensures forall i :: i in WithIndexes(n, table, parents[..k], s.indexes) <==>
      i in s.indexes || exists j :: 0 <= j < k && i == IndexName(n, table, parents[j])
  {
    if k == 0 {
      assert s.(indexes := s.indexes) == s;
    } else {
      RunCreateIndexes(n, e, table, parents, k - 1, s);
      var p := parents[k - 1];
      assert parents[..k][..k - 1] == parents[..k - 1];
      var last := CreateIndex(IndexName(n, table, p), table, n.foreignKey(p));
      assert CreateIndexes(n, table, parents[..k]) == CreateIndexes(n, table, parents[..k - 1]) + [last];
      RunConcat(CreateIndexes(n, table, parents[..k - 1]), [last], s);
      ForeignKeyIsColumn(n, e, parents, p);
      FreshIndexesStep(n, table, parents, k, s.indexes.Keys);
    }
  }

  lemma FreshIndexesStep(n: Naming, table: string, parents: seq<string>, k: nat, taken: set<string>)
    requires 0 < k <= |parents|
    ensures FreshIndexes(n, table, parents[..k], taken) <==>
      FreshIndexes(n, table, parents[..k - 1], taken) && IndexName(n, table, parents[k - 1]) !in taken &&
      forall j :: 0 <= j < k - 1 ==> IndexName(n, table, parents[k - 1]) != IndexName(n, table, parents[j])
  {
  }

  // ------------------------------------------------------------------ upgrade

  lemma RunCreates(n: Naming, known: set<string>, e: Entity, s: Schema)
    requires forall p :: p in e.belongsTo && p in known ==> n.table(p) in s.tables
    ensures var table, parents := n.table(e.name), KnownParents(known, e.belongsTo);
      Run(Creates(n, known, e), s) ==
      if && table !in s.tables && Distinct(ColumnNames(TableOf(n, known, e).columns))
         && FreshIndexes(n, table, parents, s.indexes.Keys)
      then Some(Schema(s.tables[table := TableOf(n, known, e)], WithIndexes(n, table, parents, s.indexes)))
      else None
  {
    var table, parents := n.table(e.name), KnownParents(known, e.belongsTo);
    KnownParentsMembers(known, e.belongsTo);
    var create := CreateTable(table, TableColumns(n, e, parents), References(n, parents));
    forall r | r in create.references
      ensures r.table in s.tables && r.column in ColumnNames(create.columns)
    {
      var i :| 0 <= i < |parents| && r == References(n, parents)[i];
      ForeignKeyIsColumn(n, e, parents, parents[i]);
    }
    assert Creates(n, known, e)[0] == create;
    assert Creates(n, known, e)[1..] == CreateIndexes(n, table, parents);
    if CanApply(create, s) {
      var s' := Effect(create, s);
      RunCreateIndexes(n, e, table, parents, |parents|, s');
      assert parents[..|parents|] == parents;
    }
  }

  /** The upgrade succeeds exactly when the names are distinct, and then builds the schema:
      no statement ever refers to a table that is not there yet. */
  lemma {:induction false} UpgradeBuildsSchema(n: Naming, known: set<string>, order: seq<Entity>)
    requires ParentsFirst(order, known, {})
    ensures Run(Upgrade(n, known, order), EMPTY) ==
      if WellNamed(n, known, order) then Some(SchemaOf(n, known, order)) else None
  {
    if order != [] {
      var init, e := order[..|order| - 1], order[|order| - 1];
      PrefixKeepsParentsFirst(order, known);
      UpgradeBuildsSchema(n, known, init);
      RunConcat(Upgrade(n, known, init), Creates(n, known, e), EMPTY);
      if WellNamed(n, known, init) {
        TablesOf(n, known, init);
        RunCreates(n, known, e, SchemaOf(n, known, init));
      }
    }
  }

  lemma PrefixKeepsParentsFirst(order: seq<Entity>, known: set<string>)
    requires order != [] && ParentsFirst(order, known, {})
    ensures ParentsFirst(order[..|order| - 1], known, {})
    ensures forall p :: p in order[|order| - 1].belongsTo && p in known ==> p in NamesOf(order[..|order| - 1])
  {
    var init := order[..|order| - 1];
    forall i, p | 0 <= i < |init| && p in init[i].belongsTo && p in known
      ensures p in NamesOf(init[..i])
    {
      assert init[i] == order[i] && init[..i] == order[..i];
    }
  }

  // ------------------------------------------------------------------ downgrade

  lemma {:induction false} RunDropIndexes(n: Naming, table: string, parents: seq<string>, tables: map<string, Table>,
                                          indexes: map<string, Index>)
    requires FreshIndexes(n, table, parents, indexes.Keys)
    ensures Run(DropIndexes(n, table, parents), Schema(tables, WithIndexes(n, table, parents, indexes)))
      == Some(Schema(tables, indexes))
  {
    if parents != [] {
      var k := |parents|;
      var init, p := parents[..k - 1], parents[k - 1];
      assert parents[..k] == parents;
      FreshIndexesStep(n, table, parents, k, indexes.Keys);
      WithIndexesKeys(n, table, init, indexes);
      var i := IndexName(n, table, p);
      var all, rest := WithIndexes(n, table, parents, indexes), WithIndexes(n, table, init, indexes);
      assert i !in rest;
      assert all - {i} == rest;
      RunDropIndexes(n, table, init, tables, indexes);
      assert DropIndexes(n, table, parents)[1..] == DropIndexes(n, table, init);
    }
  }

  lemma {:induction false} WithIndexesKeys(n: Naming, table: string, parents: seq<string>, indexes: map<string, Index>)
    ensures forall i :: i in WithIndexes(n, table, parents, indexes) <==>
      i in indexes || exists j :: 0 <= j < |parents| && i == IndexName(n, table, parents[j])
  {
    if parents != [] {
      WithIndexesKeys(n, table, parents[..|parents| - 1], indexes);
    }
  }

  lemma {:induction false} RunAllDropIndexes(n: Naming, known: set<string>, order: seq<Entity>,
                                             tables: map<string, Table>)
    requires WellNamed(n, known, order)
    ensures Run(AllDropIndexes(n, known, order), Schema(tables, SchemaOf(n, known, order).indexes))
      == Some(Schema(tables, map[]))
  {
    if order != [] {
      var init, e := order[..|order| - 1], order[|order| - 1];
      var table, parents := n.table(e.name), KnownParents(known, e.belongsTo);
      var before := SchemaOf(n, known, init);
      RunDropIndexes(n, table, parents, tables, before.indexes);
      RunConcat(DropIndexes(n, table, parents), AllDropIndexes(n, known, init),
        Schema(tables, SchemaOf(n, known, order).indexes));
      RunAllDropIndexes(n, known, init, tables);
    }
  }

  lemma {:induction false} ReversedSnoc(ops: seq<Op>, last: Op)
    ensures Reversed(ops + [last]) == [last] + Reversed(ops)
  {
    if ops == [] {
      assert ops + [last] == [last];
    } else {
      assert (ops + [last])[1..] == ops[1..] + [last];
      ReversedSnoc(ops[1..], last);
    }
  }

  ghost predicate Resolved(references: seq<Reference>, tables: map<string, Table>) {
    forall i :: 0 <= i < |references| ==> references[i].table in tables
  }

  ghost predicate AllResolved(tables: map<string, Table>) {
    forall t :: t in tables ==> Resolved(tables[t].references, tables)
  }

  lemma {:induction false} EveryReferenceResolves(n: Naming, known: set<string>, order: seq<Entity>)
    requires ParentsFirst(order, known, {})
    ensures AllResolved(SchemaOf(n, known, order).tables)
  {
    if order != [] {
      var init, e := order[..|order| - 1], order[|order| - 1];
      PrefixKeepsParentsFirst(order, known);
      EveryReferenceResolves(n, known, init);
      TablesOf(n, known, init);
      var parents := KnownParents(known, e.belongsTo);
      KnownParentsMembers(known, e.belongsTo);
      var before, after := SchemaOf(n, known, init).tables, SchemaOf(n, known, order).tables;
      forall i | 0 <= i < |parents|
        ensures References(n, parents)[i].table in before
      {
        assert parents[i] in parents;
        assert parents[i] in NamesOf(init);
      }
      assert Resolved(References(n, parents), before);
      forall t | t in after
        ensures Resolved(after[t].references, before)
      {
        if t != n.table(e.name) {
          assert t in before && after[t] == before[t];
        }
      }
    }
  }

  lemma {:induction false} RunDropTables(n: Naming, known: set<string>, order: seq<Entity>)
    requires WellNamed(n, known, order) && ParentsFirst(order, known, {})
    ensures Run(Reversed(AllDropTables(n, order)), Schema(SchemaOf(n, known, order).tables, map[])) == Some(EMPTY)
  {
    if order != [] {
      var init, e := order[..|order| - 1], order[|order| - 1];
      var table := n.table(e.name);
      var before, all := SchemaOf(n, known, init).tables, SchemaOf(n, known, order).tables;
      assert AllDropTables(n, order) == AllDropTables(n, init) + [DropTable(table)];
      ReversedSnoc(AllDropTables(n, init), DropTable(table));
      PrefixKeepsParentsFirst(order, known);
      EveryReferenceResolves(n, known, init);
      var s := Schema(all, map[]);
      forall t, r | t in all && t != table && r in all[t].references
        ensures r.table != table
      {
        assert t in before && all[t] == before[t];
      }
      assert all - {table} == before;
      assert Effect(DropTable(table), s) == Schema(before, map[]);
      RunDropTables(n, known, init);
      assert Reversed(AllDropTables(n, order))[1..] == Reversed(AllDropTables(n, init));
    }
  }

  // ------------------------------------------------------------------ telling the lines apart

  lemma Mismatch(s: string, word: string, i: nat, k: nat)
    requires k < |word| && (i + k < |s| ==> s[i + k] != word[k])
    ensures !OccursAt(s, word, i)
  {
    if i + |word| <= |s| { assert s[i..i + |word|][k] == s[i + k]; }
  }

  lemma OccursInFirst(a: string, s: string, word: string, i: nat)
    requires a <= s && i + |word| <= |a|
    ensures OccursAt(s, word, i) <==> OccursAt(a, word, i)
  {
    assert a[i..i + |word|] == s[i..i + |word|];
  }

  lemma OccursInSecond(b: string, s: string, word: string, i: nat, offset: nat)
    requires offset <= |s| && s[offset..] == b
    ensures OccursAt(s, word, offset + i) <==> OccursAt(b, word, i)
  {
    if i + |word| <= |b| {
      assert s[offset..][i..i + |word|] == s[offset + i..offset + i + |word|];
    }
  }

  lemma NotAcross(s: string, word: string, quote: nat, i: nat)
    requires quote < |s| && s[quote] == '"' && '"' !in word && i <= quote < i + |word|
    ensures !OccursAt(s, word, i)
  {
    assert word[quote - i] in word;
    Mismatch(s, word, i, quote - i);
  }

  /** A word without quotes occurs in a quoted text only inside one of the parts. */
  lemma ContainsAcrossQuote(a: string, b: string, word: string)
    requires word != "" && '"' !in word
    ensures Contains(a + "\"" + b, word) <==> Contains(a, word) || Contains(b, word)
  {
    var s := a + "\"" + b;
    assert a <= s && s[|a| + 1..] == b && s[|a|] == '"';
    if Contains(s, word) {
      var i :| 0 <= i <= |s| && OccursAt(s, word, i);
      if i + |word| <= |a| {
        OccursInFirst(a, s, word, i);
      } else if i <= |a| {
        NotAcross(s, word, |a|, i);
      } else {
        OccursInSecond(b, s, word, i - |a| - 1, |a| + 1);
      }
    }
    if Contains(a, word) {
      var i :| 0 <= i <= |a| && OccursAt(a, word, i);
      OccursInFirst(a, s, word, i);
    }
    if Contains(b, word) {
      var i :| 0 <= i <= |b| && OccursAt(b, word, i);
      OccursInSecond(b, s, word, i, |a| + 1);
      assert OccursAt(s, word, |a| + 1 + i);
    }
  }

  const INDEX_WORD := "drop_index"
  const TABLE_WORD := "drop_table"

  lemma Needles()
    ensures |INDEX_WORD| == |TABLE_WORD| == 10 && '"' !in INDEX_WORD && '"' !in TABLE_WORD
    ensures INDEX_WORD[0] == 'd' && INDEX_WORD[5] == 'i' && TABLE_WORD[0] == 'd' && TABLE_WORD[5] == 't'
  {
  }

  lemma FixedParts()
    ensures Contains("    op.drop_index(", INDEX_WORD) && !Contains("    op.drop_index(", TABLE_WORD)
    ensures Contains("    op.drop_table(", TABLE_WORD) && !Contains("    op.drop_table(", INDEX_WORD)
    ensures !Contains(", table_name=", TABLE_WORD) && !Contains(", table_name=", INDEX_WORD)
    ensures !Contains(")", TABLE_WORD) && !Contains(")", INDEX_WORD)
  {
    var a, b, c := "    op.drop_index(", "    op.drop_table(", ", table_name=";
    assert a[7..17] == INDEX_WORD && b[7..17] == TABLE_WORD;
    assert OccursAt(a, INDEX_WORD, 7) && OccursAt(b, TABLE_WORD, 7);
    forall i | 0 <= i <= 8
      ensures !OccursAt(a, TABLE_WORD, i) && !OccursAt(b, INDEX_WORD, i)
    {
      var k := if i == 7 then 5 else 0;
      Mismatch(a, TABLE_WORD, i, k);
      Mismatch(b, INDEX_WORD, i, k);
    }
    forall i | 0 <= i <= 3
      ensures !OccursAt(c, TABLE_WORD, i) && !OccursAt(c, INDEX_WORD, i)
    {
      Mismatch(c, TABLE_WORD, i, 0);
      Mismatch(c, INDEX_WORD, i, 0);
    }
  }

  lemma TableLine(table: string, word: string)
    requires word != "" && '"' !in word
    ensures Contains(Line(DropTable(table)), word) <==>
      Contains("    op.drop_table(", word) || Contains(table, word) || Contains(")", word)
  {
    assert Line(DropTable(table)) == "    op.drop_table(" + "\"" + (table + "\"" + ")");
    ContainsAcrossQuote("    op.drop_table(", table + "\"" + ")", word);
    ContainsAcrossQuote(table, ")", word);
  }

  lemma IndexLine(index: string, table: string, word: string)
    requires word != "" && '"' !in word
    ensures Contains(Line(DropIndex(index, table)), word) <==>
      Contains("    op.drop_index(", word) || Contains(index, word) || Contains(", table_name=", word) ||
      Contains(table, word) || Contains(")", word)
  {
    var tail := table + "\"" + ")";
    var middle := ", table_name=" + "\"" + tail;
    assert Line(DropIndex(index, table)) == "    op.drop_index(" + "\"" + (index + "\"" + middle);
    ContainsAcrossQuote("    op.drop_index(", index + "\"" + middle, word);
    ContainsAcrossQuote(index, middle, word);
    ContainsAcrossQuote(", table_name=", tail, word);
    ContainsAcrossQuote(table, ")", word);
  }

  /** Which of the two words a line of the downgrade mentions depends on the names in it. */
  lemma WordsOnALine(index: string, table: string)
    ensures Contains(Line(DropIndex(index, table)), INDEX_WORD)
    ensures Contains(Line(DropTable(table)), TABLE_WORD)
    ensures Contains(Line(DropTable(table)), INDEX_WORD) <==> Contains(table, INDEX_WORD)
    ensures Contains(Line(DropIndex(index, table)), TABLE_WORD) <==>
      Contains(index, TABLE_WORD) || Contains(table, TABLE_WORD)
  {
    Needles();
    FixedParts();
    TableLine(table, INDEX_WORD);
    TableLine(table, TABLE_WORD);
    IndexLine(index, table, INDEX_WORD);
    IndexLine(index, table, TABLE_WORD);
  }

  // ------------------------------------------------------------------ the round trip

  /** No table's name contains "drop_index" and no index's name or table contains "drop_table". */
  ghost predicate Tellable(ops: seq<Op>) {
    forall i :: 0 <= i < |ops| ==> !Ambiguous(ops[i])
  }

  predicate IsDrop(op: Op) {
    op.DropIndex? || op.DropTable?
  }

  ghost predicate AllDrops(ops: seq<Op>) {
    forall op :: op in ops ==> IsDrop(op)
  }

  lemma {:induction false} MentioningConcat(word: string, a: seq<Op>, b: seq<Op>)
    ensures Mentioning(word, a + b) == Mentioning(word, a) + Mentioning(word, b)
  {
    if a == [] {
      assert a + b == b;
    } else {
      assert (a + b)[1..] == a[1..] + b;
      MentioningConcat(word, a[1..], b);
    }
  }

  lemma {:induction false} MentioningAllOrNone(word: string, ops: seq<Op>)
    ensures (forall op :: op in ops ==> Contains(Line(op), word)) ==> Mentioning(word, ops) == ops
    ensures (forall op :: op in ops ==> !Contains(Line(op), word)) ==> Mentioning(word, ops) == []
    ensures forall op :: op in Mentioning(word, ops) <==> op in ops && Contains(Line(op), word)
  {
    if ops != [] {
      assert forall op :: op in ops <==> op == ops[0] || op in ops[1..];
      MentioningAllOrNone(word, ops[1..]);
    }
  }

  lemma {:induction false} DropIndexesAreIndexes(n: Naming, table: string, parents: seq<string>)
    ensures forall op :: op in DropIndexes(n, table, parents) ==> op.DropIndex?
  {
    if parents != [] { DropIndexesAreIndexes(n, table, parents[..|parents| - 1]); }
  }

  lemma {:induction false} AllDropIndexesAreIndexes(n: Naming, known: set<string>, order: seq<Entity>)
    ensures forall op :: op in AllDropIndexes(n, known, order) ==> op.DropIndex?
  {
    if order != [] {
      var e := order[|order| - 1];
      DropIndexesAreIndexes(n, n.table(e.name), KnownParents(known, e.belongsTo));
      AllDropIndexesAreIndexes(n, known, order[..|order| - 1]);
    }
  }

  lemma TellableLines(lines: seq<Op>, op: Op)
    requires AllDrops(lines) && Tellable(lines) && op in lines
    ensures Contains(Line(op), INDEX_WORD) <==> op.DropIndex?
    ensures Contains(Line(op), TABLE_WORD) <==> op.DropTable?
  {
    var i :| 0 <= i < |lines| && lines[i] == op;
    WordsOnALine(if op.DropIndex? then op.index else "", op.table);
  }

  lemma WhenTellable(n: Naming, known: set<string>, order: seq<Entity>)
    requires Tellable(DowngradeLines(n, known, order))
    ensures Downgrade(n, known, order) == AllDropIndexes(n, known, order) + Reversed(AllDropTables(n, order))
  {
    AllDropIndexesAreIndexes(n, known, order);
    TellableSplit(AllDropIndexes(n, known, order), AllDropTables(n, order));
  }

  lemma TellableSplit(x: seq<Op>, t: seq<Op>)
    requires Tellable(x + t) && (forall op :: op in x ==> op.DropIndex?) && (forall op :: op in t ==> op.DropTable?)
    ensures Mentioning(INDEX_WORD, x + t) == x && Mentioning(TABLE_WORD, x + t) == t
  {
    forall op | op in x || op in t
      ensures Contains(Line(op), INDEX_WORD) <==> op.DropIndex?
      ensures Contains(Line(op), TABLE_WORD) <==> op.DropTable?
    {
      assert op in x + t;
      TellableLines(x + t, op);
    }
    Separated(INDEX_WORD, x, t);
    Separated(TABLE_WORD, x, t);
  }

  lemma Separated(word: string, x: seq<Op>, t: seq<Op>)
    ensures ((forall op :: op in x ==> Contains(Line(op), word)) &&
      (forall op :: op in t ==> !Contains(Line(op), word))) ==>
      Mentioning(word, x + t) == x
    ensures ((forall op :: op in x ==> !Contains(Line(op), word)) &&
      (forall op :: op in t ==> Contains(Line(op), word))) ==>
      Mentioning(word, x + t) == t
  {
    MentioningConcat(word, x, t);
    MentioningAllOrNone(word, x);
    MentioningAllOrNone(word, t);
  }

  lemma {:induction false} GoneStaysGone(ops: seq<Op>, op: Op, s: Schema)
    requires AllDrops(ops) && op in ops
    requires match op { case DropTable(t) => t !in s.tables case DropIndex(i, _) => i !in s.indexes case _ => false }
    ensures Run(ops, s).None?
  {
    if CanApply(ops[0], s) {
      assert ops[0] in ops && op != ops[0];
      assert forall o :: o in ops[1..] ==> o in ops;
      GoneStaysGone(ops[1..], op, Effect(ops[0], s));
    }
  }

  /** A drop that occurs in both halves of a downgrade fails, whatever comes between. */
  lemma {:induction false} DroppedTwice(a: seq<Op>, b: seq<Op>, op: Op, s: Schema)
    requires AllDrops(a) && AllDrops(b) && op in a && op in b
    ensures Run(a + b, s).None?
  {
    assert (a + b)[1..] == a[1..] + b;
    if CanApply(a[0], s) {
      assert forall o :: o in a[1..] ==> o in a;
      if op == a[0] {
        GoneStaysGone(a[1..] + b, op, Effect(op, s));
      } else {
        DroppedTwice(a[1..], b, op, Effect(a[0], s));
      }
    }
  }

  lemma {:induction false} ReversedMembers(ops: seq<Op>)
    ensures forall op :: op in Reversed(ops) <==> op in ops
  {
    if ops != [] {
      ReversedMembers(ops[1..]);
      assert forall op :: op in ops <==> op == ops[0] || op in ops[1..];
    }
  }

  predicate Ambiguous(op: Op) {
    match op
    case DropTable(t) => Contains(t, INDEX_WORD)
    case DropIndex(x, t) => Contains(x, TABLE_WORD) || Contains(t, TABLE_WORD)
    case _ => false
  }

  lemma AmbiguousIsMentionedTwice(lines: seq<Op>, op: Op)
    requires Ambiguous(op) && op in lines
    ensures op in Mentioning(INDEX_WORD, lines) && op in Reversed(Mentioning(TABLE_WORD, lines))
  {
    WordsOnALine(if op.DropIndex? then op.index else "", op.table);
    MentioningAllOrNone(INDEX_WORD, lines);
    MentioningAllOrNone(TABLE_WORD, lines);
    ReversedMembers(Mentioning(TABLE_WORD, lines));
  }

  lemma SelectionsAreDrops(lines: seq<Op>)
    requires AllDrops(lines)
    ensures AllDrops(Mentioning(INDEX_WORD, lines)) && AllDrops(Reversed(Mentioning(TABLE_WORD, lines)))
  {
    MentioningAllOrNone(INDEX_WORD, lines);
    MentioningAllOrNone(TABLE_WORD, lines);
    ReversedMembers(Mentioning(TABLE_WORD, lines));
  }

  lemma WhenNotTellable(n: Naming, known: set<string>, order: seq<Entity>, s: Schema)
    requires !Tellable(DowngradeLines(n, known, order))
    ensures Run(Downgrade(n, known, order), s).None?
  {
    var lines := DowngradeLines(n, known, order);
    AllDropIndexesAreIndexes(n, known, order);
    assert AllDrops(lines);
    var i :| 0 <= i < |lines| && Ambiguous(lines[i]);
    AmbiguousIsMentionedTwice(lines, lines[i]);
    SelectionsAreDrops(lines);
    DroppedTwice(Mentioning(INDEX_WORD, lines), Reversed(Mentioning(TABLE_WORD, lines)), lines[i], s);
  }

  /** Running the migration up and down again: the upgrade succeeds exactly when names do not
      clash, and the downgrade then undoes it exactly when its lines can be told apart by text. */
  lemma DowngradeUndoesUpgrade(n: Naming, es: seq<Entity>)
    requires Acyclic(GraphOf(LastOfEachName(es)))
    ensures var known, order := NamesOf(es), KnownOrder(es);
      var up, down := Upgrade(n, known, order), Downgrade(n, known, order);
      && Run(up, EMPTY) == (if WellNamed(n, known, order) then Some(SchemaOf(n, known, order)) else None)
      && (WellNamed(n, known, order) ==>
          Run(up + down, EMPTY) == if Tellable(DowngradeLines(n, known, order)) then Some(EMPTY) else None)
  {
    var known, order := NamesOf(es), KnownOrder(es);
    CreationOrderIsTopological(es);
    LastOfEachNameMembers(es);
    assert known == NamesOf(LastOfEachName(es));
    UpgradeBuildsSchema(n, known, order);
    RunConcat(Upgrade(n, known, order), Downgrade(n, known, order), EMPTY);
    if WellNamed(n, known, order) {
      var s := SchemaOf(n, known, order);
      if Tellable(DowngradeLines(n, known, order)) {
        WhenTellable(n, known, order);
        RunAllDropIndexes(n, known, order, s.tables);
        RunConcat(AllDropIndexes(n, known, order), Reversed(AllDropTables(n, order)), s);
        RunDropTables(n, known, order);
      } else {
        WhenNotTellable(n, known, order, s);
      }
    }
  }

  // ------------------------------------------------------------------ what the conditions mean

  ghost function TableNames(n: Naming, order: seq<Entity>): seq<string> {
    seq(|order|, i requires 0 <= i < |order| => n.table(order[i].name))
  }

  ghost function IndexNames(n: Naming, table: string, parents: seq<string>): seq<string> {
    seq(|parents|, i requires 0 <= i < |parents| => IndexName(n, table, parents[i]))
  }

  ghost function AllIndexNames(n: Naming, known: set<string>, order: seq<Entity>): seq<string> {
    if order == [] then []
    else
      var e := order[|order| - 1];
      AllIndexNames(n, known, order[..|order| - 1]) + IndexNames(n, n.table(e.name), KnownParents(known, e.belongsTo))
  }

  lemma DistinctConcat(a: seq<string>, b: seq<string>)
    ensures Distinct(a + b) <==> Distinct(a) && Distinct(b) && forall x :: x in b ==> x !in a
  {
    var c := a + b;
    if Distinct(c) {
      forall i, j | 0 <= i < j < |a| ensures a[i] != a[j] { assert c[i] == a[i] && c[j] == a[j]; }
      forall i, j | 0 <= i < j < |b| ensures b[i] != b[j] { assert c[|a| + i] == b[i] && c[|a| + j] == b[j]; }
      forall i, j | 0 <= i < |a| && 0 <= j < |b| ensures a[i] != b[j] { assert c[i] == a[i] && c[|a| + j] == b[j]; }
    }
    if Distinct(a) && Distinct(b) && forall x :: x in b ==> x !in a {
      forall i, j | 0 <= i < j < |c| ensures c[i] != c[j] {
        if i < |a| <= j { assert c[j] in b && c[i] in a; }
      }
    }
  }

  lemma {:induction false} SchemaNames(n: Naming, known: set<string>, order: seq<Entity>)
    ensures forall t :: t in SchemaOf(n, known, order).tables <==> t in TableNames(n, order)
    ensures forall i :: i in SchemaOf(n, known, order).indexes <==> i in AllIndexNames(n, known, order)
  {
    if order != [] {
      var init, e := order[..|order| - 1], order[|order| - 1];
      SchemaNames(n, known, init);
      var table, parents := n.table(e.name), KnownParents(known, e.belongsTo);
      WithIndexesKeys(n, table, parents, SchemaOf(n, known, init).indexes);
      assert TableNames(n, order) == TableNames(n, init) + [table];
      var names := IndexNames(n, table, parents);
      forall i | i in names
        ensures exists j :: 0 <= j < |parents| && i == IndexName(n, table, parents[j])
      {
        var j :| 0 <= j < |names| && names[j] == i;
      }
      assert forall j :: 0 <= j < |parents| ==> IndexName(n, table, parents[j]) == names[j];
    }
  }

  lemma FreshMeansDistinct(n: Naming, table: string, parents: seq<string>, taken: set<string>)
    ensures FreshIndexes(n, table, parents, taken) <==>
      Distinct(IndexNames(n, table, parents)) && forall x :: x in IndexNames(n, table, parents) ==> x !in taken
  {
    var names := IndexNames(n, table, parents);
    assert forall i :: 0 <= i < |names| ==> names[i] in names && names[i] == IndexName(n, table, parents[i]);
    if FreshIndexes(n, table, parents, taken) {
      forall i, j | 0 <= i < j < |names| ensures names[i] != names[j] {
        assert names[j] != IndexName(n, table, parents[i]);
      }
    }
  }

  /** The upgrade's condition, in one look at the names: tables, indexes and each table's columns. */
  lemma {:induction false} WellNamedMeansDistinct(n: Naming, known: set<string>, order: seq<Entity>)
    ensures WellNamed(n, known, order) <==>
      && Distinct(TableNames(n, order)) && Distinct(AllIndexNames(n, known, order))
      && forall e :: e in order ==> Distinct(ColumnNames(TableOf(n, known, e).columns))
  {
    if order != [] {
      var init, e := order[..|order| - 1], order[|order| - 1];
      var table, parents := n.table(e.name), KnownParents(known, e.belongsTo);
      WellNamedMeansDistinct(n, known, init);
      SchemaNames(n, known, init);
      assert TableNames(n, order) == TableNames(n, init) + [table];
      DistinctConcat(TableNames(n, init), [table]);
      DistinctConcat(AllIndexNames(n, known, init), IndexNames(n, table, parents));
      FreshMeansDistinct(n, table, parents, SchemaOf(n, known, init).indexes.Keys);
      assert forall f :: f in order <==> f in init || f == e;
    }
  }

  /** Nothing is overwritten: every entity's table and every foreign key's index is in the schema. */
  lemma {:induction false} SchemaIsComplete(n: Naming, known: set<string>, order: seq<Entity>, e: Entity)
    requires WellNamed(n, known, order) && e in order
    ensures var s := SchemaOf(n, known, order); var table := n.table(e.name);
      && table in s.tables && s.tables[table] == TableOf(n, known, e)
      && forall p :: p in e.belongsTo && p in known ==>
          IndexName(n, table, p) in s.indexes && s.indexes[IndexName(n, table, p)] == Index(table, n.foreignKey(p))
  {
    var init, last := order[..|order| - 1], order[|order| - 1];
    var table, parents := n.table(last.name), KnownParents(known, last.belongsTo);
    var before := SchemaOf(n, known, init);
    if e in init {
      SchemaIsComplete(n, known, init, e);
      KeepsOldIndexes(n, table, parents, before.indexes);
    } else {
      KnownParentsMembers(known, last.belongsTo);
      AddsNewIndexes(n, table, parents, before.indexes);
    }
  }

  lemma {:induction false} KeepsOldIndexes(n: Naming, table: string, parents: seq<string>, indexes: map<string, Index>)
    requires FreshIndexes(n, table, parents, indexes.Keys)
    ensures forall i :: i in indexes ==>
      i in WithIndexes(n, table, parents, indexes) && WithIndexes(n, table, parents, indexes)[i] == indexes[i]
  {
    if parents != [] {
      assert parents[..|parents|] == parents;
      FreshIndexesStep(n, table, parents, |parents|, indexes.Keys);
      KeepsOldIndexes(n, table, parents[..|parents| - 1], indexes);
    }
  }

  lemma {:induction false} AddsNewIndexes(n: Naming, table: string, parents: seq<string>, indexes: map<string, Index>)
    requires FreshIndexes(n, table, parents, indexes.Keys)
    ensures var w := WithIndexes(n, table, parents, indexes);
      forall p :: p in parents ==>
        IndexName(n, table, p) in w && w[IndexName(n, table, p)] == Index(table, n.foreignKey(p))
  {
    if parents != [] {
      var init, p := parents[..|parents| - 1], parents[|parents| - 1];
      assert parents[..|parents|] == parents;
      FreshIndexesStep(n, table, parents, |parents|, indexes.Keys);
      AddsNewIndexes(n, table, init, indexes);
      forall q | q in init
        ensures IndexName(n, table, q) != IndexName(n, table, p)
      {
        var j :| 0 <= j < |init| && init[j] == q;
        assert parents[j] == q;
      }
      assert parents == init + [p];
    }
  }

  /** An entity called DropIndex has a table whose drop is mistaken for an index's. */
  lemma DropIndexEntityBreaksDowngrade(n: Naming)
    requires n.table("DropIndex") == "drop_indexes"
    ensures var e := Entity("DropIndex", [], []);
      && WellNamed(n, {"DropIndex"}, [e])
      && Run(Upgrade(n, {"DropIndex"}, [e]) + Downgrade(n, {"DropIndex"}, [e]), EMPTY).None?
  {
    var known, e := {"DropIndex"}, Entity("DropIndex", [], []);
    var order := [e];
    assert order[..0] == [];
    assert ColumnNames(TableOf(n, known, e).columns) == ["id", "created_at"];
    assert OccursAt("drop_indexes", INDEX_WORD, 0);
    var lines := DowngradeLines(n, known, order);
    assert KnownParents(known, e.belongsTo) == [];
    assert AllDropIndexes(n, known, order[..0]) == [];
    assert AllDropIndexes(n, known, order) == [];
    assert lines[0] == DropTable("drop_indexes");
    assert !Tellable(lines);
    UpgradeBuildsSchema(n, known, order);
    RunConcat(Upgrade(n, known, order), Downgrade(n, known, order), EMPTY);
    WhenNotTellable(n, known, order, SchemaOf(n, known, order));
  }

  lemma {:induction false} IndexIsListed(n: Naming, known: set<string>, order: seq<Entity>, e: Entity, p: string)
    requires e in order && p in e.belongsTo && p in known
    ensures IndexName(n, n.table(e.name), p) in AllIndexNames(n, known, order)
  {
    var init, last := order[..|order| - 1], order[|order| - 1];
    if e in init {
      IndexIsListed(n, known, init, e, p);
    } else {
      assert order == init + [last] && e == last;
      KnownParentsMembers(known, e.belongsTo);
      var parents := KnownParents(known, e.belongsTo);
      var i :| 0 <= i < |parents| && parents[i] == p;
      assert IndexNames(n, n.table(e.name), parents)[i] == IndexName(n, n.table(e.name), p);
    }
  }

  /** Two entities whose foreign keys get the same index name make the list of index names repeat. */
  lemma {:induction false} ClashRepeats(n: Naming, known: set<string>, order: seq<Entity>, e: Entity, p: string,
                                        f: Entity, q: string)
    requires e in order && p in e.belongsTo && p in known && f in order && q in f.belongsTo && q in known && e != f
    requires IndexName(n, n.table(e.name), p) == IndexName(n, n.table(f.name), q)
    ensures !Distinct(AllIndexNames(n, known, order))
    decreases |order|
  {
    var init, last := order[..|order| - 1], order[|order| - 1];
    assert order == init + [last];
    var mine := IndexNames(n, n.table(last.name), KnownParents(known, last.belongsTo));
    DistinctConcat(AllIndexNames(n, known, init), mine);
    if e in init && f in init {
      ClashRepeats(n, known, init, e, p, f, q);
    } else if e in init {
      ClashAcross(n, known, init, e, p, f, q);
    } else {
      ClashAcross(n, known, init, f, q, e, p);
    }
  }

  lemma ClashAcross(n: Naming, known: set<string>, init: seq<Entity>, e: Entity, p: string, last: Entity, q: string)
    requires e in init && p in e.belongsTo && p in known && q in last.belongsTo && q in known
    requires IndexName(n, n.table(e.name), p) == IndexName(n, n.table(last.name), q)
    ensures exists x ::
      x in IndexNames(n, n.table(last.name), KnownParents(known, last.belongsTo)) && x in AllIndexNames(n, known, init)
  {
    IndexIsListed(n, known, init, e, p);
    assert [last][..0] == [];
    IndexIsListed(n, known, [last], last, q);
    assert AllIndexNames(n, known, [last]) ==
      AllIndexNames(n, known, []) + IndexNames(n, n.table(last.name), KnownParents(known, last.belongsTo));
  }

  /** Whenever two entities of a specification get the same index name, its upgrade fails. */
  lemma IndexClashFailsUpgrade(n: Naming, es: seq<Entity>, e: Entity, p: string, f: Entity, q: string)
    requires DistinctNames(es) && Acyclic(GraphOf(es)) && e in es && f in es && e != f
    requires p in e.belongsTo && p in NamesOf(es) && q in f.belongsTo && q in NamesOf(es)
    requires IndexName(n, n.table(e.name), p) == IndexName(n, n.table(f.name), q)
    ensures !WellNamed(n, NamesOf(es), KnownOrder(es)) && Run(Upgrade(n, NamesOf(es), KnownOrder(es)), EMPTY).None?
  {
    var known, order := NamesOf(es), KnownOrder(es);
    DistinctNamesAllKept(es);
    CreationOrderIsTopological(es);
    assert e in multiset(es) && f in multiset(es);
    assert e in multiset(order) && f in multiset(order);
    ClashRepeats(n, known, order, e, p, f, q);
    WellNamedMeansDistinct(n, known, order);
    UpgradeBuildsSchema(n, known, order);
  }

  function ClashingEntities(): seq<Entity> {
    [Entity("Role", [], []), Entity("GroupsRole", [], []), Entity("User", [], ["GroupsRole"]),
     Entity("UsersGroup", [], ["Role"])]
  }

  /** The names the real rules give these entities. */
  ghost predicate NamedAsUsual(n: Naming) {
    && n.table("Role") == "roles" && n.table("GroupsRole") == "groups_roles"
    && n.table("User") == "users" && n.table("UsersGroup") == "users_groups"
    && n.foreignKey("GroupsRole") == "groups_role_id" && n.foreignKey("Role") == "role_id"
  }

  lemma ClashingAreAcyclic()
    ensures DistinctNames(ClashingEntities()) && Acyclic(GraphOf(ClashingEntities()))
    ensures NamesOf(ClashingEntities()) == {"Role", "GroupsRole", "User", "UsersGroup"}
  {
    var es := ClashingEntities();
    assert es[0] in es[..2] && es[0] in es[..3] && es[1] in es[..2]
      && es[0].name == "Role" && es[1].name == "GroupsRole";
    forall i, p | 0 <= i < |es| && p in es[i].belongsTo && p in NamesOf(es)
      ensures p in NamesOf(es[..i])
    {
      if i == 2 { assert p == es[1].name; } else { assert i == 3 && p == es[0].name; }
    }
    OrderedMeansAcyclic(es);
    forall x ensures x in NamesOf(es) <==> x in {"Role", "GroupsRole", "User", "UsersGroup"} {
      assert es[0] in es && es[1] in es && es[2] in es && es[3] in es;
    }
  }

  /** A valid specification, with four different tables, whose upgrade the database rejects: two of its
      foreign keys get the same index name. */
  lemma IndexNamesCanCollide(n: Naming)
    requires NamedAsUsual(n)
    ensures var es := ClashingEntities();
      && DistinctNames(es) && Acyclic(GraphOf(es)) && Distinct(TableNames(n, es))
      && !WellNamed(n, NamesOf(es), KnownOrder(es)) && Run(Upgrade(n, NamesOf(es), KnownOrder(es)), EMPTY).None?
  {
    var es := ClashingEntities();
    ClashingAreAcyclic();
    assert es[2] in es && es[3] in es;
    assert IndexName(n, "users", "GroupsRole") == "ix_users_groups_role_id";
    assert IndexName(n, "users_groups", "Role") == "ix_users_groups_role_id";
    IndexClashFailsUpgrade(n, es, es[2], "GroupsRole", es[3], "Role");
    DistinctTables(n);
  }

  lemma DistinctTables(n: Naming)
    requires NamedAsUsual(n)
    ensures Distinct(TableNames(n, ClashingEntities()))
  {
    assert TableNames(n, ClashingEntities()) == ["roles", "groups_roles", "users", "users_groups"];
  }
}
