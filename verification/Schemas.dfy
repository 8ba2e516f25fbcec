/** The migrated database in the specification's own terms: which columns, foreign keys and indexes each
    entity gets, and in which orders its statements can be run at all. */
module Schemas {
  import opened Options
  import opened Relations
  import opened CreationOrder
  import opened Migrations

  // ------------------------------------------------------------------ one table

  /** A foreign key of an entity leads to the table of the parent it is named after. */
  ghost predicate IsKeyOf(n: Naming, known: set<string>, e: Entity, r: Reference, p: string) {
    p in e.belongsTo && p in known && r == Migrations.Reference(n.foreignKey(p), n.table(p))
  }

  /** Each known parent's key references that parent's table, and there is no other reference. */
  lemma TableReferences(n: Naming, known: set<string>, e: Entity)
    ensures var references := TableOf(n, known, e).references;
      && (forall p :: p in e.belongsTo && p in known ==>
            Migrations.Reference(n.foreignKey(p), n.table(p)) in references)
      && forall r :: r in references ==> exists p :: IsKeyOf(n, known, e, r, p)
  {
    var parents, references := KnownParents(known, e.belongsTo), TableOf(n, known, e).references;
    KnownParentsMembers(known, e.belongsTo);
    forall p | p in e.belongsTo && p in known
      ensures Migrations.Reference(n.foreignKey(p), n.table(p)) in references
    {
      var i :| 0 <= i < |parents| && parents[i] == p;
      assert references[i] == Migrations.Reference(n.foreignKey(p), n.table(p));
    }
    forall r | r in references
      ensures exists p :: IsKeyOf(n, known, e, r, p)
    {
      var i :| 0 <= i < |references| && references[i] == r;
      assert parents[i] in parents && IsKeyOf(n, known, e, r, parents[i]);
    }
  }

  ghost predicate IsColumnOf(n: Naming, known: set<string>, e: Entity, c: Column) {
    || c == Column("id", false) || c == Column("created_at", false)
    || (exists f :: f in e.fields && c == Column(f.name, !f.required))
    || exists p :: p in e.belongsTo && p in known && c == Column(n.foreignKey(p), false)
  }

  /** The columns are the id, the fields in their order, nullable unless required, a required key for each
      known parent, and the time of creation; and there is no other. */
  lemma TableHasColumns(n: Naming, known: set<string>, e: Entity)
    ensures var columns := TableOf(n, known, e).columns;
      && |columns| >= |e.fields| + 2 && columns[0] == Column("id", false)
      && (forall i :: 0 <= i < |e.fields| ==> columns[1 + i] == Column(e.fields[i].name, !e.fields[i].required))
      && (forall p :: p in e.belongsTo && p in known ==> Column(n.foreignKey(p), false) in columns)
      && columns[|columns| - 1] == Column("created_at", false)
      && forall c :: c in columns ==> IsColumnOf(n, known, e, c)
  {
    var parents, columns := KnownParents(known, e.belongsTo), TableOf(n, known, e).columns;
    KnownParentsMembers(known, e.belongsTo);
    forall p | p in e.belongsTo && p in known
      ensures Column(n.foreignKey(p), false) in columns
    {
      var i :| 0 <= i < |parents| && parents[i] == p;
      assert columns[1 + |e.fields| + i] == Column(n.foreignKey(p), false);
    }
    forall i | 0 <= i < |columns|
      ensures IsColumnOf(n, known, e, columns[i])
    {
      if 1 <= i <= |e.fields| {
        assert e.fields[i - 1] in e.fields && columns[i] == Column(e.fields[i - 1].name, !e.fields[i - 1].required);
      } else if |e.fields| < i < |columns| - 1 {
        var p := parents[i - 1 - |e.fields|];
        assert p in parents && columns[i] == Column(n.foreignKey(p), false);
      }
    }
  }

  // ------------------------------------------------------------------ the whole schema

  /** Index `i` of the schema belongs to parent `p` of entity `e`. */
  ghost predicate IsIndexOf(n: Naming, known: set<string>, e: Entity, p: string, i: string, x: Index) {
    && p in e.belongsTo && p in known
    && i == "ix_" + n.table(e.name) + "_" + n.foreignKey(p) && x == Index(n.table(e.name), n.foreignKey(p))
  }

  lemma {:induction false} AddedIndexes(n: Naming, table: string, parents: seq<string>, indexes: map<string, Index>,
                                        i: string)
    requires i in WithIndexes(n, table, parents, indexes)
    ensures var w := WithIndexes(n, table, parents, indexes);
      || (i in indexes && w[i] == indexes[i])
      || exists p :: p in parents && i == IndexName(n, table, p) && w[i] == Index(table, n.foreignKey(p))
  {
    if parents != [] {
      var init, p := parents[..|parents| - 1], parents[|parents| - 1];
      assert parents == init + [p];
      if i != IndexName(n, table, p) { AddedIndexes(n, table, init, indexes, i); }
    }
  }

  lemma {:induction false} EveryIndexIsWanted(n: Naming, known: set<string>, order: seq<Entity>, i: string)
    requires i in SchemaOf(n, known, order).indexes
    ensures exists e, p :: e in order && IsIndexOf(n, known, e, p, i, SchemaOf(n, known, order).indexes[i])
  {
    var init, e := order[..|order| - 1], order[|order| - 1];
    var before := SchemaOf(n, known, init);
    var parents := KnownParents(known, e.belongsTo);
    assert order == init + [e];
    AddedIndexes(n, n.table(e.name), parents, before.indexes, i);
    if i in before.indexes && SchemaOf(n, known, order).indexes[i] == before.indexes[i] {
      EveryIndexIsWanted(n, known, init, i);
    } else {
      KnownParentsMembers(known, e.belongsTo);
      var p :| p in parents && i == IndexName(n, n.table(e.name), p) &&
        SchemaOf(n, known, order).indexes[i] == Index(n.table(e.name), n.foreignKey(p));
      assert e in order && IsIndexOf(n, known, e, p, i, SchemaOf(n, known, order).indexes[i]);
    }
  }

  /** What a successful upgrade has built, for every entity of the specification: its table with its
      columns, one foreign key for each known parent to that parent's table, an index on each; and no table
      and no index besides. */
  lemma SchemaIsAsSpecified(n: Naming, known: set<string>, order: seq<Entity>, e: Entity)
    requires WellNamed(n, known, order) && e in order
    ensures var s := SchemaOf(n, known, order); var table := n.table(e.name);
      && table in s.tables
      && (forall f :: f in e.fields ==> Column(f.name, !f.required) in s.tables[table].columns)
      && (forall c :: c in s.tables[table].columns ==> IsColumnOf(n, known, e, c))
      && (forall p :: p in e.belongsTo && p in known ==>
            && Column(n.foreignKey(p), false) in s.tables[table].columns
            && Migrations.Reference(n.foreignKey(p), n.table(p)) in s.tables[table].references
            && "ix_" + table + "_" + n.foreignKey(p) in s.indexes
            && s.indexes["ix_" + table + "_" + n.foreignKey(p)] == Index(table, n.foreignKey(p)))
      && (forall r :: r in s.tables[table].references ==> exists p :: IsKeyOf(n, known, e, r, p))
      && (forall t :: t in s.tables ==> exists d :: d in order && n.table(d.name) == t)
      && forall i :: i in s.indexes ==> exists d, p :: d in order && IsIndexOf(n, known, d, p, i, s.indexes[i])
  {
    var s := SchemaOf(n, known, order);
    SchemaIsComplete(n, known, order, e);
    TablesOf(n, known, order);
    TableReferences(n, known, e);
    TableHasColumns(n, known, e);
    forall f | f in e.fields
      ensures Column(f.name, !f.required) in TableOf(n, known, e).columns
    {
      var i :| 0 <= i < |e.fields| && e.fields[i] == f;
      assert TableOf(n, known, e).columns[1 + i] == Column(f.name, !f.required);
    }
    forall p | p in e.belongsTo && p in known
      ensures "ix_" + n.table(e.name) + "_" + n.foreignKey(p) == IndexName(n, n.table(e.name), p)
    {
    }
    forall i | i in s.indexes
      ensures exists d, p :: d in order && IsIndexOf(n, known, d, p, i, s.indexes[i])
    {
      EveryIndexIsWanted(n, known, order, i);
    }
  }

  // ------------------------------------------------------------------ orders that work

  /** Every known parent's table is created before its child's. */
  ghost predicate ParentTablesFirst(n: Naming, known: set<string>, order: seq<Entity>) {
    forall i, p :: 0 <= i < |order| && p in order[i].belongsTo && p in known ==>
      exists e :: e in order[..i] && n.table(e.name) == n.table(p)
  }

  lemma FirstsOfPrefix(n: Naming, known: set<string>, order: seq<Entity>)
    requires order != []
    ensures var init, e := order[..|order| - 1], order[|order| - 1];
      ParentTablesFirst(n, known, order) <==>
        && ParentTablesFirst(n, known, init)
        && forall p :: p in e.belongsTo && p in known ==> exists d :: d in init && n.table(d.name) == n.table(p)
  {
    var k := |order| - 1;
    var init := order[..k];
    forall i | 0 <= i < k ensures init[i] == order[i] && init[..i] == order[..i] {}
    if ParentTablesFirst(n, known, init) &&
       forall p :: p in order[k].belongsTo && p in known ==> exists d :: d in init && n.table(d.name) == n.table(p) {
      forall i, p | 0 <= i < |order| && p in order[i].belongsTo && p in known
        ensures exists e :: e in order[..i] && n.table(e.name) == n.table(p)
      {
        if i < k {
          assert p in init[i].belongsTo;
          var d :| d in init[..i] && n.table(d.name) == n.table(p);
          assert d in order[..i];
        }
      }
    }
    if ParentTablesFirst(n, known, order) {
      forall i, p | 0 <= i < k && p in init[i].belongsTo && p in known
        ensures exists e :: e in init[..i] && n.table(e.name) == n.table(p)
      {
        var d :| d in order[..i] && n.table(d.name) == n.table(p);
        assert d in init[..i];
      }
    }
  }

  lemma MissingParentFails(n: Naming, known: set<string>, e: Entity, s: Schema, p: string)
    requires p in e.belongsTo && p in known && n.table(p) !in s.tables
    ensures Run(Creates(n, known, e), s).None?
  {
    TableReferences(n, known, e);
    var create := Creates(n, known, e)[0];
    assert Migrations.Reference(n.foreignKey(p), n.table(p)) in create.references;
    assert !CanApply(create, s);
  }

  /** Run in any order whatever, the upgrade succeeds exactly if the names are distinct and every parent's
      table comes first; the creation order is what makes it so. */
  lemma {:induction false} UpgradeNeedsParentsFirst(n: Naming, known: set<string>, order: seq<Entity>)
    ensures Run(Upgrade(n, known, order), EMPTY) ==
      if WellNamed(n, known, order) && ParentTablesFirst(n, known, order) then Some(SchemaOf(n, known, order)) else None
  {
    if order != [] {
      var init, e := order[..|order| - 1], order[|order| - 1];
      FirstsOfPrefix(n, known, order);
      UpgradeNeedsParentsFirst(n, known, init);
      RunConcat(Upgrade(n, known, init), Creates(n, known, e), EMPTY);
      if WellNamed(n, known, init) && ParentTablesFirst(n, known, init) {
        var s := SchemaOf(n, known, init);
        TablesOf(n, known, init);
        if forall p :: p in e.belongsTo && p in known ==> n.table(p) in s.tables {
          RunCreates(n, known, e, s);
        } else {
          var p :| p in e.belongsTo && p in known && n.table(p) !in s.tables;
          MissingParentFails(n, known, e, s, p);
        }
      }
    }
  }

  ghost predicate OnlyDrops(ops: seq<Op>, kept: string) {
    forall i :: 0 <= i < |ops| ==> ops[i].DropTable? && ops[i].table != kept
  }

  lemma {:induction false} DropsKeepOthers(ops: seq<Op>, s: Schema, kept: string)
    requires OnlyDrops(ops, kept) && kept in s.tables && Run(ops, s).Some?
    ensures kept in Run(ops, s).value.tables && Run(ops, s).value.tables[kept] == s.tables[kept]
    decreases |ops|
  {
    if ops != [] { DropsKeepOthers(ops[1..], Effect(ops[0], s), kept); }
  }

  /** Dropping the tables in the order in which they were created fails as soon as there is a relation:
      the parent is still referenced. */
  lemma ForwardDropsFail(n: Naming, known: set<string>, order: seq<Entity>, i: nat, j: nat)
    requires WellNamed(n, known, order) && j < i < |order|
    requires order[j].name in order[i].belongsTo && order[j].name in known
    ensures Run(AllDropTables(n, order), Schema(SchemaOf(n, known, order).tables, map[])).None?
  {
    var all, s := AllDropTables(n, order), Schema(SchemaOf(n, known, order).tables, map[]);
    var child, parent := n.table(order[i].name), n.table(order[j].name);
    assert all == all[..j] + all[j..] && all[j..][0] == DropTable(parent);
    RunConcat(all[..j], all[j..], s);
    TablesDiffer(n, known, order, i);
    assert order[i] in order;
    SchemaIsComplete(n, known, order, order[i]);
    TableReferences(n, known, order[i]);
    if Run(all[..j], s).Some? {
      DropsKeepOthers(all[..j], s, child);
      var s' := Run(all[..j], s).value;
      assert Migrations.Reference(n.foreignKey(order[j].name), parent) in s'.tables[child].references;
      assert !CanApply(DropTable(parent), s');
    }
  }

  lemma {:induction false} TablesDiffer(n: Naming, known: set<string>, order: seq<Entity>, i: nat)
    requires WellNamed(n, known, order) && i < |order|
    ensures forall j :: 0 <= j < i ==> n.table(order[j].name) != n.table(order[i].name)
    decreases |order|
  {
    var init := order[..|order| - 1];
    if i < |order| - 1 {
      TablesDiffer(n, known, init, i);
      assert forall j :: 0 <= j <= i ==> init[j] == order[j];
    } else {
      TablesOf(n, known, init);
      assert forall j :: 0 <= j < i ==> order[j] in init;
    }
  }
}
