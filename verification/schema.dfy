/**
 * `create_collection` and `delete_collection`: the type table, the column
 * definition loop, the CREATE TABLE and DROP TABLE texts, and what the two
 * commands do to the database's set of tables.
 */
module Schema {
  import opened PyValues
  import opened Sql

  /** The logical field types a request may name. */
  datatype FieldType =
    | StringType
    | Integer32Type
    | Integer64Type
    | FloatType
    | VectorType
    | BooleanType

  const TypeNames: set<string> :=
    {"String", "Integer32", "Integer64", "Float", "Vector", "Boolean"}

  /** The name a request uses for a field type. */
  function TypeName(t: FieldType): string {
    match t
    case StringType => "String"
    case Integer32Type => "Integer32"
    case Integer64Type => "Integer64"
    case FloatType => "Float"
    case VectorType => "Vector"
    case BooleanType => "Boolean"
  }

  /** Looks a type name up in the table; exactly the six names are known. */
  function ParseFieldType(name: string): (r: Option<FieldType>)
    ensures r.Some? ==> TypeName(r.value) == name
    ensures r.None? <==> name !in TypeNames
  {
    if name == "String" then Some(StringType)
    else if name == "Integer32" then Some(Integer32Type)
    else if name == "Integer64" then Some(Integer64Type)
    else if name == "Float" then Some(FloatType)
    else if name == "Vector" then Some(VectorType)
    else if name == "Boolean" then Some(BooleanType)
    else None
  }

  /** Every field type is found again under its own name. */
  lemma ParseTypeName(t: FieldType)
    ensures ParseFieldType(TypeName(t)) == Some(t)
  {
  }

  /** The PostgreSQL column type of a field type; `dimension` is the text
      written between the parentheses of a vector type. */
  function PhysicalType(t: FieldType, dimension: string): string {
    match t
    case StringType => "TEXT"
    case Integer32Type => "INTEGER"
    case Integer64Type => "BIGINT"
    case FloatType => "FLOAT"
    case VectorType => "VECTOR(" + dimension + ")"
    case BooleanType => "BOOLEAN"
  }

  /** Different field types never share a column type. */
  lemma PhysicalTypeInjective(t: FieldType, u: FieldType, d: string, e: string)
    requires PhysicalType(t, d) == PhysicalType(u, e)
    ensures t == u && (t == VectorType ==> d == e)
  {
    var p := PhysicalType(t, d);
    if t == VectorType || u == VectorType {
      assert p[0] == 'V';
      assert t == VectorType && u == VectorType;
      assert p[7..|p| - 1] == d;
      assert p[7..|p| - 1] == e;
    }
  }

  /** Subscripting the type table with the request's `type` value: a list or
      dict cannot be a key (TypeError), any other unknown value is a KeyError. */
  function ColumnType(t: Value, dimension: string): (r: Result<string>)
    ensures r.Ok? <==> t.Str? && t.s in TypeNames
    ensures r.Ok? ==> r.value == PhysicalType(ParseFieldType(t.s).value, dimension)
    ensures r.Err? ==> r.error == (if t.Arr? || t.Obj? then TypeError else KeyError(t))
  {
    match t
    case Arr(_) => Err(TypeError)
    case Obj(_) => Err(TypeError)
    case Str(name) =>
      (match ParseFieldType(name)
       case Some(ft) => Ok(PhysicalType(ft, dimension))
       case None => Err(KeyError(t)))
    case _ => Err(KeyError(t))
  }

  /** A field the loop accepts: a dict with a known `type` and a `name`. */
  predicate Declared(field: Value) {
    && field.Obj?
    && Get(field.entries, "type").Some?
    && Get(field.entries, "type").value.Str?
    && Get(field.entries, "type").value.s in TypeNames
    && Get(field.entries, "name").Some?
  }

  /** One pass of the column-definition loop. The table is built (and
      `field.get('dimension', 128)` evaluated) before `field["type"]` is
      looked up, so a field that is not a dict fails with AttributeError. */
  function FieldDefinition(field: Value): (r: Result<string>)
    ensures r.Ok? <==> Declared(field)
    ensures !field.Obj? ==> r == Err(AttributeError)
  {
    if !field.Obj? then Err(AttributeError)
    else
      var f := field.entries;
      var dimension := Show(GetOr(f, "dimension", Int(128)));
      var t :- Lookup(f, "type");
      var ty :- ColumnType(t, dimension);
      var name :- Lookup(f, "name");
      Ok(Show(name) + " " + ty + (if Truthy(GetOr(f, "isPrimary", Null)) then " PRIMARY KEY" else ""))
  }

  /** The type-table entry a declared field gets. */
  function DeclaredType(f: Dict): string
    requires Get(f, "type").Some? && Get(f, "type").value.Str? && Get(f, "type").value.s in TypeNames
  {
    PhysicalType(ParseFieldType(Get(f, "type").value.s).value, Show(GetOr(f, "dimension", Int(128))))
  }

  lemma DefinitionText(field: Value)
    requires Declared(field)
    ensures var f := field.entries;
            FieldDefinition(field).value
            == Show(Get(f, "name").value) + " " + DeclaredType(f)
               + (if Truthy(GetOr(f, "isPrimary", Null)) then " PRIMARY KEY" else "")
  {
  }

  /** No column type ends in the Y of PRIMARY KEY. */
  lemma PhysicalTypeLast(t: FieldType, dimension: string)
    ensures var ty := PhysicalType(t, dimension);
            ty != [] && ty[|ty| - 1] != 'Y'
  {
  }

  lemma PrimarySuffix(name: string, ty: string, primary: bool)
    requires ty != [] && ty[|ty| - 1] != 'Y'
    ensures var head := name + " " + ty;
            var def := head + (if primary then " PRIMARY KEY" else "");
            def[..|head|] == head && (EndsWith(def, " PRIMARY KEY") <==> primary)
  {
    var head := name + " " + ty;
    if !primary {
      assert head + "" == head;
      assert head[|head| - 1] == ty[|ty| - 1];
    }
  }

  /** A definition is the field's name, its column type from the table (the
      vector dimension is the top-level `dimension`, 128 when absent), and
      ends in PRIMARY KEY exactly when the top-level `isPrimary` is truthy. */
  lemma DefinitionParts(field: Value)
    requires Declared(field)
    ensures var f := field.entries;
            var def := FieldDefinition(field).value;
            var head := Show(Get(f, "name").value) + " " + DeclaredType(f);
            && def[..|head|] == head
            && (EndsWith(def, " PRIMARY KEY") <==> Truthy(GetOr(f, "isPrimary", Null)))
  {
    var f := field.entries;
    DefinitionText(field);
    PhysicalTypeLast(ParseFieldType(Get(f, "type").value.s).value, Show(GetOr(f, "dimension", Int(128))));
    PrimarySuffix(Show(Get(f, "name").value), DeclaredType(f), Truthy(GetOr(f, "isPrimary", Null)));
  }

  lemma ShowDefaultDimension()
    ensures Show(Int(128)) == "128"
  {
  }

  /** A Vector field without a top-level `dimension` becomes VECTOR(128),
      whatever else the field holds (a `dimension` inside `properties` is
      not looked at). */
  lemma VectorDefaultsTo128(f: Dict)
    requires Get(f, "type") == Some(Str("Vector"))
    requires Get(f, "name").Some?
    requires Get(f, "dimension").None?
    ensures FieldDefinition(Obj(f)) ==
            Ok(Show(Get(f, "name").value) + " VECTOR(128)"
               + (if Truthy(GetOr(f, "isPrimary", Null)) then " PRIMARY KEY" else ""))
  {
    assert Declared(Obj(f));
    DefinitionText(Obj(f));
    ShowDefaultDimension();
    assert ParseFieldType("Vector") == Some(VectorType);
    assert DeclaredType(f) == "VECTOR(" + "128" + ")" == "VECTOR(128)";
    var name := Show(Get(f, "name").value);
    assert name + " " + "VECTOR(128)" == name + " VECTOR(128)";
  }

  /** The `id` field the web client sends: primary key and dimension are
      nested under `properties`. */
  const ClientIdField: Value :=
    Obj([("name", Str("id")), ("type", Str("Integer32")),
         ("properties", Obj([("isPrimary", Bool(true)), ("autoIncrement", Bool(true))]))])

  /** The `embedding` field the web client sends, asking for 384 dimensions. */
  const ClientEmbeddingField: Value :=
    Obj([("name", Str("embedding")), ("type", Str("Vector")),
         ("properties", Obj([("dimension", Int(384))]))])

  /** The loop reads `isPrimary` at the top level of a field only: the
      client's `id` field gets no PRIMARY KEY. */
  lemma ClientIdLosesPrimaryKey()
    ensures FieldDefinition(ClientIdField) == Ok("id" + " INTEGER")
  {
    var f := ClientIdField.entries;
    assert Get(f, "type") == Some(Str("Integer32"));
    assert Get(f, "name") == Some(Str("id"));
    assert Get(f, "isPrimary").None?;
    assert Declared(ClientIdField);
    DefinitionText(ClientIdField);
    assert ParseFieldType("Integer32") == Some(Integer32Type);
    assert DeclaredType(f) == "INTEGER";
    assert Show(Str("id")) == "id";
    assert "id" + " " + "INTEGER" + "" == "id" + " INTEGER";
  }

  /** The loop reads `dimension` at the top level of a field only: the
      client's `embedding` field gets the default dimension. */
  lemma ClientEmbeddingLosesDimension()
    ensures FieldDefinition(ClientEmbeddingField) == Ok("embedding" + " VECTOR(128)")
  {
    var f := ClientEmbeddingField.entries;
    assert Get(f, "type") == Some(Str("Vector"));
    assert Get(f, "name") == Some(Str("embedding"));
    assert Get(f, "dimension").None?;
    assert Get(f, "isPrimary").None?;
    VectorDefaultsTo128(f);
    assert !Truthy(GetOr(f, "isPrimary", Null));
    assert Show(Str("embedding")) == "embedding";
    assert "embedding" + " VECTOR(128)" + "" == "embedding" + " VECTOR(128)";
  }

  /** The definition loop for any per-field step `define`: one definition
      per field, in input order; the first field that fails stops it. */
  function Collect(fields: seq<Value>, define: Value -> Result<string>): (r: Result<seq<string>>)
    ensures r.Ok? ==> |r.value| == |fields|
    decreases |fields|
  {
    if fields == [] then Ok([])
    else
      var d :- define(fields[0]);
      var rest :- Collect(fields[1..], define);
      Ok([d] + rest)
  }

  /** The loop succeeds exactly when every field passes, and then the i-th
      definition is the i-th field's. */
  lemma {:induction false} CollectFacts(fields: seq<Value>, define: Value -> Result<string>)
    ensures var r := Collect(fields, define);
            && (r.Ok? <==> forall j :: 0 <= j < |fields| ==> define(fields[j]).Ok?)
            && (r.Ok? ==> forall j :: 0 <= j < |fields| ==> r.value[j] == define(fields[j]).value)
    decreases |fields|
  {
    if fields != [] {
      CollectFacts(fields[1..], define);
      var r := Collect(fields, define);
      if r.Ok? {
        forall j | 0 <= j < |fields|
          ensures define(fields[j]).Ok? && r.value[j] == define(fields[j]).value
        {
          if j > 0 {
            assert fields[1..][j - 1] == fields[j];
          }
        }
      } else if define(fields[0]).Ok? {
        var j :| 0 <= j < |fields[1..]| && !define(fields[1..][j]).Ok?;
        assert fields[1..][j] == fields[j + 1];
      }
    }
  }

  /** The loop fails with the exception of its first failing field. */
  lemma {:induction false} CollectFirstError(fields: seq<Value>, define: Value -> Result<string>, k: nat)
    requires k < |fields|
    requires forall j :: 0 <= j < k ==> define(fields[j]).Ok?
    requires define(fields[k]).Err?
    ensures Collect(fields, define) == Err(define(fields[k]).error)
    decreases k
  {
    if k > 0 {
      assert forall j :: 0 <= j < k - 1 ==> fields[1..][j] == fields[j + 1];
      CollectFirstError(fields[1..], define, k - 1);
    }
  }

  /** Running the loop over one more field that passes appends its
      definition. */
  lemma {:induction false} CollectSnoc(fields: seq<Value>, define: Value -> Result<string>, field: Value)
    requires Collect(fields, define).Ok? && define(field).Ok?
    ensures Collect(fields + [field], define)
            == Ok(Collect(fields, define).value + [define(field).value])
    decreases |fields|
  {
    var x := define(field).value;
    if fields == [] {
      assert fields + [field] == [field];
      assert [field][1..] == [];
      assert [x] + [] == [] + [x];
    } else {
      var whole := fields + [field];
      assert whole[1..] == fields[1..] + [field];
      assert whole[0] == fields[0];
      var d := define(fields[0]).value;
      var rest := Collect(fields[1..], define).value;
      CollectSnoc(fields[1..], define, field);
      assert [d] + (rest + [x]) == ([d] + rest) + [x];
    }
  }

  /** The column-definition loop of `create_collection`. */
  function FieldDefinitions(fields: seq<Value>): (r: Result<seq<string>>)
    ensures r.Ok? <==> forall j :: 0 <= j < |fields| ==> Declared(fields[j])
    ensures r.Ok? ==> |r.value| == |fields|
    ensures r.Ok? ==> forall j :: 0 <= j < |fields| ==> r.value[j] == FieldDefinition(fields[j]).value
  {
    CollectFacts(fields, FieldDefinition);
    Collect(fields, FieldDefinition)
  }

  /** The loop fails with the exception of its first bad field. */
  lemma FieldDefinitionsFirstError(fields: seq<Value>, k: nat)
    requires k < |fields|
    requires forall j :: 0 <= j < k ==> Declared(fields[j])
    requires !Declared(fields[k])
    ensures FieldDefinitions(fields) == Err(FieldDefinition(fields[k]).error)
  {
    CollectFirstError(fields, FieldDefinition, k);
  }

  /** What `create_collection` reads from the body: `id`, `pc`, `name` and
      `fields` must all be present (the first two are never used), then the
      collection name and the column definitions. */
  function CreateRequest(body: Dict): Result<(Value, seq<string>)> {
    var id :- Lookup(body, "id");
    var pc :- Lookup(body, "pc");
    var name :- Lookup(body, "name");
    var fields :- Lookup(body, "fields");
    var elems :- Iterate(fields);
    var defs :- FieldDefinitions(elems);
    Ok((name, defs))
  }

  function CreateText(name: Value, defs: seq<string>): string {
    "CREATE TABLE IF NOT EXISTS " + Show(name) + " (" + Join(", ", defs) + ")"
  }

  /** The command `create_collection` executes, or the exception it raises
      before executing anything. */
  function CreateCommand(body: Dict): Result<Command> {
    var req :- CreateRequest(body);
    Ok(Command(CreateText(req.0, req.1), []))
  }

  /** A create request goes through exactly when the four keys are there,
      `fields` can be iterated and every field is declared with a known type
      and a name; then the command lists one definition per field, in order,
      and binds no parameters. */
  lemma CreateCommandSucceeds(body: Dict)
    ensures CreateCommand(body).Ok? <==>
            && Get(body, "id").Some? && Get(body, "pc").Some?
            && Get(body, "name").Some? && Get(body, "fields").Some?
            && Iterate(Get(body, "fields").value).Ok?
            && var elems := Iterate(Get(body, "fields").value).value;
               forall j :: 0 <= j < |elems| ==> Declared(elems[j])
    ensures CreateCommand(body).Ok? ==>
            var elems := Iterate(Get(body, "fields").value).value;
            exists defs: seq<string> ::
              && |defs| == |elems|
              && (forall j :: 0 <= j < |elems| ==> defs[j] == FieldDefinition(elems[j]).value)
              && CreateCommand(body).value == Command(CreateText(Get(body, "name").value, defs), [])
  {
    if CreateCommand(body).Ok? {
      var defs := CreateRequest(body).value.1;
      assert CreateCommand(body).value == Command(CreateText(Get(body, "name").value, defs), []);
    }
  }

  /** An unknown type name anywhere in the field list makes the request fail
      before any command is built: with KeyError when it is the first bad
      field. */
  lemma UnknownTypeFails(body: Dict, elems: seq<Value>, k: nat)
    requires Get(body, "id").Some? && Get(body, "pc").Some? && Get(body, "name").Some?
    requires Get(body, "fields") == Some(Arr(elems))
    requires k < |elems| && elems[k].Obj?
    requires Get(elems[k].entries, "type").Some?
    requires Get(elems[k].entries, "type").value.Str?
    requires Get(elems[k].entries, "type").value.s !in TypeNames
    ensures CreateCommand(body).Err?
    ensures (forall j :: 0 <= j < k ==> Declared(elems[j])) ==>
            CreateCommand(body) == Err(KeyError(Get(elems[k].entries, "type").value))
  {
    assert !Declared(elems[k]);
    if forall j :: 0 <= j < k ==> Declared(elems[j]) {
      FieldDefinitionsFirstError(elems, k);
    }
  }

  /** The loop over the fields for a per-field step, appending one
      definition per field as the source does. */
  method CollectLoop(fields: seq<Value>, define: Value -> Result<string>) returns (r: Result<seq<string>>)
    ensures r == Collect(fields, define)
  {
    var definitions: seq<string> := [];
    var i := 0;
    while i < |fields|
      invariant 0 <= i <= |fields|
      invariant Collect(fields[..i], define) == Ok(definitions)
    {
      var def := define(fields[i]);
      if def.Err? {
        CollectFacts(fields[..i], define);
        assert forall j :: 0 <= j < i ==> fields[..i][j] == fields[j];
        CollectFirstError(fields, define, i);
        return Err(def.error);
      }
      CollectSnoc(fields[..i], define, fields[i]);
      assert fields[..i] + [fields[i]] == fields[..i + 1];
      definitions := definitions + [def.value];
      i := i + 1;
    }
    assert fields[..i] == fields;
    return Ok(definitions);
  }

  /** `create_collection`: the command it executes, built by the loop. */
  method CreateCollection(body: Dict) returns (r: Result<Command>)
    ensures r == CreateCommand(body)
  {
    var id :- Lookup(body, "id");
    var pc :- Lookup(body, "pc");
    var name :- Lookup(body, "name");
    var fields :- Lookup(body, "fields");
    var elems :- Iterate(fields);
    var definitions :- CollectLoop(elems, FieldDefinition);
    return Ok(Command(CreateText(name, definitions), []));
  }

  /** The command `delete_collection` executes. */
  function DropCommand(body: Dict): (r: Result<Command>)
    ensures r.Err? <==> Get(body, "name").None?
    ensures r.Ok? ==> r.value == Command("DROP TABLE IF EXISTS " + Show(Get(body, "name").value), [])
  {
    var name :- Lookup(body, "name");
    Ok(Command("DROP TABLE IF EXISTS " + Show(name), []))
  }

  /** The database's tables: name to column definitions. */
  type Catalog = map<string, seq<string>>

  /** What running `create_collection` does to the tables: nothing on an
      exception; otherwise IF NOT EXISTS adds the table only when no table of
      that name exists, whatever columns an existing one has. */
  function ApplyCreate(cat: Catalog, body: Dict): (c: Catalog)
    ensures CreateRequest(body).Err? ==> c == cat
    ensures CreateRequest(body).Ok? ==>
            var t := Show(CreateRequest(body).value.0);
            && t in c
            && (t in cat ==> c == cat)
            && (t !in cat ==> c[t] == CreateRequest(body).value.1)
            && c - {t} == cat - {t}
  {
    match CreateRequest(body)
    case Err(_) => cat
    case Ok(req) =>
      var t := Show(req.0);
      if t in cat then cat else cat[t := req.1]
  }

  /** What running `delete_collection` does: IF EXISTS makes a missing table
      no error. */
  function ApplyDrop(cat: Catalog, body: Dict): (c: Catalog)
    ensures Get(body, "name").None? ==> c == cat
    ensures Get(body, "name").Some? ==> c == cat - {Show(Get(body, "name").value)}
  {
    match Get(body, "name")
    case None => cat
    case Some(name) => cat - {Show(name)}
  }

  /** Creating twice is creating once. */
  lemma CreateIdempotent(cat: Catalog, body: Dict)
    ensures ApplyCreate(ApplyCreate(cat, body), body) == ApplyCreate(cat, body)
  {
  }

  /** Dropping twice is dropping once. */
  lemma DropIdempotent(cat: Catalog, body: Dict)
    ensures ApplyDrop(ApplyDrop(cat, body), body) == ApplyDrop(cat, body)
  {
  }

  /** A drop after a create of the same name leaves the other tables as they
      were before the create. */
  lemma DropUndoesCreate(cat: Catalog, body: Dict)
    requires CreateRequest(body).Ok?
    requires Get(body, "name").Some?
    ensures ApplyDrop(ApplyCreate(cat, body), body) == ApplyDrop(cat, body)
  {
  }
}
