/** pkg/storage/postgres.go: the INSERT statement `Create` sends to the
    database. The entity's struct fields become a sequence of descriptors (Go
    reads them by reflection); the connection and `db.Exec` are left outside,
    `Exec`'s outcome being a parameter. */
module PsqlStorage {
  import opened Wrappers
  import opened Text

  /** One struct field: its name, its `column` tag if it has one, its value. */
  datatype FieldDescriptor<V> = FieldDescriptor(name: string, column: Option<string>, value: V)

  /** The column a field is stored in: the `column` tag, else the field name. */
  function ColumnName<V>(f: FieldDescriptor<V>): (c: string)
    ensures f.column.Some? ==> c == f.column.value
    ensures f.column.None? ==> c == f.name
  {
    match f.column
    case Some(tag) => tag
    case None => f.name
  }

  function Columns<V>(fields: seq<FieldDescriptor<V>>): (cs: seq<string>)
    ensures |cs| == |fields|
    ensures forall i :: 0 <= i < |fields| ==> cs[i] == ColumnName(fields[i])
  {
    seq(|fields|, i requires 0 <= i < |fields| => ColumnName(fields[i]))
  }

  function Values<V>(fields: seq<FieldDescriptor<V>>): (vs: seq<V>)
    ensures |vs| == |fields|
    ensures forall i :: 0 <= i < |fields| ==> vs[i] == fields[i].value
  {
    seq(|fields|, i requires 0 <= i < |fields| => fields[i].value)
  }

  /** The i-th placeholder, counting from 0: "$" and i + 1 in decimal. */
  function Placeholder(i: nat): string
  {
    "$" + NatToString(i + 1)
  }

  function Placeholders(n: nat): (ps: seq<string>)
    ensures |ps| == n
    ensures forall i :: 0 <= i < n ==> ps[i] == Placeholder(i)
  {
    seq(n, i requires 0 <= i < n => Placeholder(i))
  }

  /** No two placeholders are alike, so each value is bound to one position. */
  lemma PlaceholdersDistinct(i: nat, j: nat)
    requires i != j
    ensures Placeholder(i) != Placeholder(j)
  {
    if Placeholder(i) == Placeholder(j) {
      assert NatToString(i + 1) == Placeholder(i)[1..];
      NatToStringInjective(i + 1, j + 1);
    }
  }

  const ListSeparator := ", "

  /** The statement for a table and an entity's fields. */
  function InsertQuery<V>(table: string, fields: seq<FieldDescriptor<V>>): string
  {
    "INSERT INTO " + table + "(" + Join(Columns(fields), ListSeparator) + ") VALUES("
      + Join(Placeholders(|fields|), ListSeparator) + ")"
  }

  /** A joined list starts with its first item: there is no leading separator. */
  lemma {:induction false} JoinStartsWithFirst(parts: seq<string>, sep: string)
    requires |parts| >= 1
    ensures |parts[0]| <= |Join(parts, sep)| && Join(parts, sep)[..|parts[0]|] == parts[0]
    decreases |parts|
  {
    if |parts| > 1 {
      var init := parts[..|parts| - 1];
      JoinStartsWithFirst(init, sep);
      var j := Join(init, sep);
      assert Join(parts, sep) == j + (sep + parts[|parts| - 1]);
    }
  }

  /** Adding one item to a list adds a separator and the item. */
  lemma JoinSnoc(parts: seq<string>, item: string, sep: string)
    ensures Join(parts + [item], sep) == if parts == [] then item else Join(parts, sep) + sep + item
  {
    assert (parts + [item])[..|parts|] == parts;
  }

  /** The first two placeholders. */
  lemma TwoPlaceholders()
    ensures Join(Placeholders(2), ListSeparator) == "$1, $2"
  {
    assert NatToString(1) == [Digit(1)] == "1";
    assert NatToString(2) == [Digit(2)] == "2";
    var ps := Placeholders(2);
    assert ps[0] == "$1" && ps[1] == "$2";
    assert ps == ["$1", "$2"];
    assert ps[..1] == ["$1"];
  }

  /** The statement for two fields, the first tagged with its column. */
  lemma TwoFieldQuery<V>(table: string, f: FieldDescriptor<V>, g: FieldDescriptor<V>)
    requires f.column.Some? && g.column.None?
    ensures InsertQuery(table, [f, g])
         == "INSERT INTO " + table + "(" + (f.column.value + ", " + g.name) + ") VALUES(" + "$1, $2" + ")"
  {
    var cs := Columns([f, g]);
    assert cs == [f.column.value, g.name];
    assert cs[..1] == [f.column.value];
    assert Join(cs, ListSeparator) == f.column.value + ", " + g.name;
    TwoPlaceholders();
  }

  /** Joining one more item of a list adds a separator (after the first) and the item. */
  lemma JoinPrefixStep(parts: seq<string>, i: nat, sep: string)
    requires i < |parts|
    ensures Join(parts[..i + 1], sep) == if i == 0 then parts[i] else Join(parts[..i], sep) + sep + parts[i]
  {
    assert parts[..i + 1] == parts[..i] + [parts[i]];
    JoinSnoc(parts[..i], parts[i], sep);
  }

  /** The state of `Create`'s loop after `i` fields: both lists joined so far
      and the values collected so far. */
  ghost predicate Built<V>(fields: seq<FieldDescriptor<V>>, i: nat, columns: string, placeholders: string, values: seq<V>)
  {
    && i <= |fields|
    && columns == Join(Columns(fields)[..i], ListSeparator)
    && placeholders == Join(Placeholders(|fields|)[..i], ListSeparator)
    && |values| == i && (forall k :: 0 <= k < i ==> values[k] == fields[k].value)
  }

  /** One iteration of the loop keeps Built. */
  lemma BuiltStep<V>(fields: seq<FieldDescriptor<V>>, i: nat, columns: string, placeholders: string, values: seq<V>,
                     columns': string, placeholders': string, values': seq<V>)
    requires Built(fields, i, columns, placeholders, values) && i < |fields|
    requires columns' == (if i > 0 then columns + ListSeparator else columns) + ColumnName(fields[i])
    requires placeholders' == (if i > 0 then placeholders + ListSeparator else placeholders) + ("$" + NatToString(i + 1))
    requires values' == values + [fields[i].value]
    ensures Built(fields, i + 1, columns', placeholders', values')
  {
    JoinPrefixStep(Columns(fields), i, ListSeparator);
    JoinPrefixStep(Placeholders(|fields|), i, ListSeparator);
  }

  /** After the last field the lists are the whole statement's. */
  lemma BuiltAll<V>(fields: seq<FieldDescriptor<V>>, columns: string, placeholders: string, values: seq<V>)
    requires Built(fields, |fields|, columns, placeholders, values)
    ensures columns == Join(Columns(fields), ListSeparator)
    ensures placeholders == Join(Placeholders(|fields|), ListSeparator)
    ensures values == Values(fields)
  {
    assert Columns(fields)[..|fields|] == Columns(fields);
    assert Placeholders(|fields|)[..|fields|] == Placeholders(|fields|);
  }

  /** The loop of `Create`: the column list, the placeholder list and the
      value list, built field by field. */
  method BuildInsert<V>(table: string, fields: seq<FieldDescriptor<V>>) returns (query: string, values: seq<V>)
    ensures query == InsertQuery(table, fields)
    ensures values == Values(fields)
  {
    var columnsSb := "";
    var valuesSb := "";
    values := [];

    for i := 0 to |fields|
      invariant Built(fields, i, columnsSb, valuesSb, values)
    {
      var columnName;
      if fields[i].column.Some? {
        columnName := fields[i].column.value;
      } else {
        columnName := fields[i].name;
      }
      ghost var columns0, placeholders0, values0 := columnsSb, valuesSb, values;

      values := values + [fields[i].value];
      if i > 0 {
        columnsSb := columnsSb + ListSeparator;
        valuesSb := valuesSb + ListSeparator;
      }
      columnsSb := columnsSb + columnName;
      valuesSb := valuesSb + ("$" + NatToString(i + 1));
      BuiltStep(fields, i, columns0, placeholders0, values0, columnsSb, valuesSb, values);
    }

    BuiltAll(fields, columnsSb, valuesSb, values);
    query := "INSERT INTO " + table + "(" + columnsSb + ") VALUES(" + valuesSb + ")";
  }

  const InsertErrorPrefix := "could not insert row on database: "

  class PsqlStorage {
    const tableName: string

    constructor(tableName: string)
      ensures this.tableName == tableName
    {
      this.tableName := tableName;
    }

    /** `Create`: runs the INSERT through `exec`, which reports the database's
        error if there is one; the entity comes back on success, the wrapped
        error otherwise. */
    method Create<V>(entity: seq<FieldDescriptor<V>>, exec: (string, seq<V>) -> Option<string>)
      returns (r: Result<seq<FieldDescriptor<V>>, string>)
      ensures var err := exec(InsertQuery(tableName, entity), Values(entity));
        && (err.None? ==> r == Success(entity))
        && (err.Some? ==> r == Failure(InsertErrorPrefix + err.value))
    {
      var query, values := BuildInsert(tableName, entity);
      var err := exec(query, values);
      if err.Some? {
        return Failure(InsertErrorPrefix + err.value);
      }
      return Success(entity);
    }
  }

  /** `NewPsqlStorage`: a missing or empty table name is refused (Go panics
      with "Invalid table name"). */
  method NewPsqlStorage(tableName: Option<string>) returns (r: Result<PsqlStorage, string>)
    ensures r.Failure? <==> tableName.None? || tableName.value == []
    ensures r.Failure? ==> r.error == "Invalid table name"
    ensures r.Success? ==> fresh(r.value) && r.value.tableName == tableName.value
  {
    if tableName.None? || |tableName.value| == 0 {
      return Failure("Invalid table name");
    }
    var s := new PsqlStorage(tableName.value);
    return Success(s);
  }
}
