/**
 * `insert_data` and `delete_data`: one INSERT per item, with one slot per
 * key, and one DELETE whose WHERE clause has one `k = %s` per condition key.
 * The top-level copy of `insert_data` first stores `embed(item["description"])`
 * under the item's `embedding` key, changing the item in place; the copy in
 * the package does not.
 */
module Records {
  import opened PyValues
  import opened Sql

  /** The per-item step before the INSERT is built. With an embedding model
      (the top-level copy) the item's description is embedded and stored under
      `embedding`; without one (the package copy) the item is used as it is. */
  function Prepare(item: Value, embedder: Option<Value -> Value>): (r: Result<Dict>)
    ensures embedder.None? ==> r == (if item.Obj? then Ok(item.entries) else Err(AttributeError))
    ensures embedder.Some? ==> (r.Ok? <==> item.Obj? && Get(item.entries, "description").Some?)
  {
    match embedder
    case None =>
      if item.Obj? then Ok(item.entries) else Err(AttributeError)
    case Some(embed) =>
      if !item.Obj? then Err(TypeError)
      else
        var text :- Lookup(item.entries, "description");
        Ok(Set(item.entries, "embedding", embed(text)))
  }

  /** The top-level copy's step: an item that is not a dict cannot be
      subscripted (TypeError), one without `description` raises KeyError;
      otherwise the result holds `embedding = embed(description)` and every
      other key of the item unchanged, `embedding` keeping its place if the
      item had one and coming last if not. */
  lemma EnrichFacts(item: Value, embed: Value -> Value)
    ensures var r := Prepare(item, Some(embed));
            && (!item.Obj? ==> r == Err(TypeError))
            && (item.Obj? && Get(item.entries, "description").None? ==> r == Err(KeyError(Str("description"))))
            && (r.Ok? ==>
                var description := Get(item.entries, "description").value;
                && Get(r.value, "embedding") == Some(embed(description))
                && (forall k :: k != "embedding" ==> Get(r.value, k) == Get(item.entries, k))
                && Keys(r.value) == (if Get(item.entries, "embedding").Some? then Keys(item.entries)
                                     else Keys(item.entries) + ["embedding"]))
  {
  }

  /** The INSERT for one item: its keys as the column list and one `%s` per
      key, with the item's values as parameters. */
  function InsertCommand(collection: Value, item: Dict): Command {
    Command("INSERT INTO " + Show(collection) + " (" + Join(", ", Keys(item)) + ") VALUES ("
            + Join(", ", Repeat("%s", |item|)) + ")", Values(item))
  }

  lemma {:induction false} JoinPlain(sep: string, parts: seq<string>)
    requires '%' !in sep
    requires forall i :: 0 <= i < |parts| ==> '%' !in parts[i]
    ensures '%' !in Join(sep, parts)
    decreases |parts|
  {
    if |parts| > 1 {
      JoinPlain(sep, parts[1..]);
    }
  }

  /** In a dict the i-th key finds the i-th value. */
  lemma KeyFindsValue(d: Dict, i: nat)
    requires UniqueKeys(d) && i < |d|
    ensures Get(d, d[i].0) == Some(d[i].1)
  {
  }

  /** Columns and values line up: one parameter per key, and the parameter
      in position i is the value of the column named in position i. */
  lemma InsertCommandAligned(collection: Value, item: Dict)
    requires UniqueKeys(item)
    ensures var c := InsertCommand(collection, item);
            && |c.params| == |Keys(item)| == |item|
            && forall i :: 0 <= i < |item| ==> Get(item, Keys(item)[i]) == Some(c.params[i])
  {
  }

  /** When the collection name and the keys carry no percent sign there is
      one slot per parameter. */
  lemma InsertCommandSlots(collection: Value, item: Dict)
    requires '%' !in Show(collection)
    requires forall i :: 0 <= i < |item| ==> '%' !in item[i].0
    ensures WellBound(InsertCommand(collection, item))
  {
    var keys := Keys(item);
    JoinPlain(", ", keys);
    var prefix := "INSERT INTO " + Show(collection) + " (" + Join(", ", keys) + ") VALUES (";
    var slots := Join(", ", Repeat("%s", |item|));
    assert InsertCommand(collection, item).text == prefix + (slots + ")");
    PlaceholdersAfterPlain(prefix, slots + ")");
    assert "" + "%s" == "%s";
    assert SlotParts(Repeat("", |item|)) == Repeat("%s", |item|);
    PlaceholdersJoinSlots(", ", Repeat("", |item|), ")");
  }

  /** The per-item step of one copy of the code, as a function value. */
  function Step(embedder: Option<Value -> Value>): (step: Value -> Result<Dict>)
    ensures forall item :: step(item) == Prepare(item, embedder)
  {
    item => Prepare(item, embedder)
  }

  /** What the insert loop leaves behind: the item list after the loop (the
      top-level copy changes items in place), the commands executed in order,
      and the exception that stopped the loop, if any. */
  datatype Run = Run(data: seq<Value>, issued: seq<Command>, failure: Option<Error>)

  /** The insert loop: items are prepared and inserted one after the other;
      the first item that cannot be prepared raises, after the INSERTs of the
      items before it were executed and before this request's commit. */
  function InsertRun(collection: Value, items: seq<Value>, step: Value -> Result<Dict>): (r: Run)
    ensures |r.data| == |items|
    decreases |items|
  {
    if items == [] then Run([], [], None)
    else
      match step(items[0])
      case Err(e) => Run(items, [], Some(e))
      case Ok(d) =>
        var rest := InsertRun(collection, items[1..], step);
        Run([Obj(d)] + rest.data, [InsertCommand(collection, d)] + rest.issued, rest.failure)
  }

  /** The loop runs the items in order: the items before the first one that
      cannot be prepared are prepared, inserted and (in the top-level copy)
      replaced in place; that item's exception stops the loop and it and the
      items after it stay as they were. */
  lemma {:induction false} InsertRunFacts(collection: Value, items: seq<Value>, step: Value -> Result<Dict>)
    ensures var r := InsertRun(collection, items, step);
            && |r.issued| <= |items|
            && (r.failure.None? <==> |r.issued| == |items|)
            && (forall j :: 0 <= j < |r.issued| ==>
                  && step(items[j]).Ok?
                  && r.issued[j] == InsertCommand(collection, step(items[j]).value)
                  && r.data[j] == Obj(step(items[j]).value))
            && (forall j :: |r.issued| <= j < |items| ==> r.data[j] == items[j])
            && (r.failure.Some? ==> step(items[|r.issued|]) == Err(r.failure.value))
    decreases |items|
  {
    if items != [] && step(items[0]).Ok? {
      InsertRunFacts(collection, items[1..], step);
    }
  }

  /** The loop stops at the first item that cannot be prepared. */
  lemma InsertRunStops(collection: Value, items: seq<Value>, step: Value -> Result<Dict>, j: nat)
    requires j < |items| && step(items[j]).Err?
    ensures InsertRun(collection, items, step).failure.Some?
    ensures |InsertRun(collection, items, step).issued| <= j
  {
    InsertRunFacts(collection, items, step);
  }

  /** The package copy leaves the items as they are. */
  lemma PlainRunKeepsItems(collection: Value, items: seq<Value>)
    ensures InsertRun(collection, items, Step(None)).data == items
  {
  }

  /** In the top-level copy every inserted item carries `embedding =
      embed(description)` and every other key unchanged. */
  lemma EnrichedRunItems(collection: Value, items: seq<Value>, embed: Value -> Value, j: nat)
    requires j < |items| && j < |InsertRun(collection, items, Step(Some(embed))).issued|
    ensures var r := InsertRun(collection, items, Step(Some(embed)));
            && items[j].Obj? && r.data[j].Obj?
            && Get(items[j].entries, "description").Some?
            && Get(r.data[j].entries, "embedding") == Some(embed(Get(items[j].entries, "description").value))
            && (forall k :: k != "embedding" ==> Get(r.data[j].entries, k) == Get(items[j].entries, k))
            && r.issued[j] == InsertCommand(collection, r.data[j].entries)
  {
    InsertRunFacts(collection, items, Step(Some(embed)));
    EnrichFacts(items[j], embed);
  }

  /** What `insert_data` reads from the body: the collection and the items
      that `for item in data` visits. */
  function InsertRequest(body: Dict): (r: Result<(Value, seq<Value>)>)
    ensures r.Ok? <==> Get(body, "collection").Some? && Get(body, "data").Some?
                       && Iterate(Get(body, "data").value).Ok?
    ensures r.Ok? ==> r.value == (Get(body, "collection").value, Iterate(Get(body, "data").value).value)
  {
    var collection :- Lookup(body, "collection");
    var data :- Lookup(body, "data");
    var items :- Iterate(data);
    Ok((collection, items))
  }

  lemma ConcatAssoc<T>(a: seq<T>, b: seq<T>, c: seq<T>)
    ensures a + (b + c) == (a + b) + c
  {
  }

  /** One turn of the insert loop, from item `i` on. */
  lemma InsertRunStep(collection: Value, items: seq<Value>, step: Value -> Result<Dict>, i: nat)
    requires i < |items|
    ensures step(items[i]).Err? ==>
            InsertRun(collection, items[i..], step) == Run(items[i..], [], Some(step(items[i]).error))
    ensures step(items[i]).Ok? ==>
            var d := step(items[i]).value;
            var next := InsertRun(collection, items[i + 1..], step);
            InsertRun(collection, items[i..], step)
            == Run([Obj(d)] + next.data, [InsertCommand(collection, d)] + next.issued, next.failure)
  {
  }

  /** The insert loop's progress: the run over all of `original` is the
      items done so far and the commands issued so far, followed by the run
      over the items from `i` on. */
  ghost predicate RunFrom(collection: Value, original: seq<Value>, step: Value -> Result<Dict>,
                          i: nat, done: seq<Value>, issued: seq<Command>)
    requires i <= |original|
  {
    var whole := InsertRun(collection, original, step);
    var rest := InsertRun(collection, original[i..], step);
    && whole.data == done + rest.data
    && whole.issued == issued + rest.issued
    && whole.failure == rest.failure
  }

  /** Preparing item `i` moves the progress one item on. */
  lemma RunFromAdvance(collection: Value, original: seq<Value>, step: Value -> Result<Dict>,
                       i: nat, done: seq<Value>, issued: seq<Command>)
    requires i < |original| && step(original[i]).Ok?
    requires RunFrom(collection, original, step, i, done, issued)
    ensures var d := step(original[i]).value;
            RunFrom(collection, original, step, i + 1, done + [Obj(d)],
                    issued + [InsertCommand(collection, d)])
  {
  }

  /** An item that cannot be prepared ends the run where it stands. */
  lemma RunFromStop(collection: Value, original: seq<Value>, step: Value -> Result<Dict>,
                    i: nat, done: seq<Value>, issued: seq<Command>)
    requires i < |original| && step(original[i]).Err?
    requires RunFrom(collection, original, step, i, done, issued)
    ensures var whole := InsertRun(collection, original, step);
            && whole.data == done + original[i..]
            && whole.issued == issued
            && whole.failure == Some(step(original[i]).error)
  {
  }

  /** Replacing the first element after `done`. */
  lemma ReplaceNext<T>(s: seq<T>, done: seq<T>, rest: seq<T>, x: T)
    requires s == done + rest && rest != []
    ensures s[|done| := x] == (done + [x]) + rest[1..]
  {
  }

  /** The insert loop over the request's list of items: each item is
      prepared and stored back in its place, then its INSERT is executed. */
  method InsertLoop(collection: Value, items: array<Value>, step: Value -> Result<Dict>)
    returns (issued: seq<Command>, failure: Option<Error>)
    modifies items
    ensures var r := InsertRun(collection, old(items[..]), step);
            items[..] == r.data && issued == r.issued && failure == r.failure
  {
    ghost var original := items[..];
    ghost var done: seq<Value> := [];
    issued, failure := [], None;
    assert original[0..] == original;
    for i := 0 to items.Length
      invariant |done| == i
      invariant items[..] == done + original[i..]
      invariant RunFrom(collection, original, step, i, done, issued)
    {
      assert items[i] == original[i] by {
        assert items[..][i] == (done + original[i..])[i];
      }
      var prepared := step(items[i]);
      if prepared.Err? {
        RunFromStop(collection, original, step, i, done, issued);
        failure := Some(prepared.error);
        return;
      }
      RunFromAdvance(collection, original, step, i, done, issued);
      ghost var before := items[..];
      items[i] := Obj(prepared.value);
      assert items[..] == before[i := Obj(prepared.value)];
      ReplaceNext(before, done, original[i..], Obj(prepared.value));
      assert original[i..][1..] == original[i + 1..];
      done := done + [Obj(prepared.value)];
      issued := issued + [InsertCommand(collection, prepared.value)];
    }
    assert original[items.Length..] == [];
  }

  /** `insert_data`: the top-level copy passes an embedding model (`Some`),
      the package copy none. */
  method InsertData(body: Dict, embedder: Option<Value -> Value>)
    returns (issued: seq<Command>, failure: Option<Error>)
    ensures InsertRequest(body).Err? ==> issued == [] && failure == Some(InsertRequest(body).error)
    ensures InsertRequest(body).Ok? ==>
            var r := InsertRun(InsertRequest(body).value.0, InsertRequest(body).value.1, Step(embedder));
            issued == r.issued && failure == r.failure
  {
    var request := InsertRequest(body);
    if request.Err? {
      return [], Some(request.error);
    }
    var (collection, elems) := request.value;
    var items := new Value[|elems|](i requires 0 <= i < |elems| => elems[i]);
    assert items[..] == elems;
    issued, failure := InsertLoop(collection, items, Step(embedder));
  }

  /** `k = %s` for every condition key, in order. */
  function Clauses(keys: seq<string>): (r: seq<string>)
    ensures |r| == |keys|
  {
    SlotParts(seq(|keys|, i requires 0 <= i < |keys| => keys[i] + " = "))
  }

  /** The command `delete_data` executes: conditions that are not a dict
      have no `keys` (AttributeError). */
  function DeleteCommand(body: Dict): (r: Result<Command>)
    ensures r.Ok? <==> Get(body, "collection").Some? && Get(body, "conditions").Some?
                       && Get(body, "conditions").value.Obj?
    ensures (Get(body, "collection").Some? && Get(body, "conditions").Some?
             && !Get(body, "conditions").value.Obj?) ==> r == Err(AttributeError)
  {
    var collection :- Lookup(body, "collection");
    var conditions :- Lookup(body, "conditions");
    if !conditions.Obj? then Err(AttributeError)
    else
      Ok(Command("DELETE FROM " + Show(collection) + " WHERE " + Join(" AND ", Clauses(Keys(conditions.entries))),
                 Values(conditions.entries)))
  }

  /** The text `delete_data` executes: one `key = %s` clause per condition,
      in the dict's order, joined by AND; the parameters are the condition
      values in the same order. */
  lemma DeleteCommandText(body: Dict)
    requires DeleteCommand(body).Ok?
    ensures var conditions := Get(body, "conditions").value.entries;
            var c := DeleteCommand(body).value;
            && c.text == "DELETE FROM " + Show(Get(body, "collection").value) + " WHERE "
                         + Join(" AND ", seq(|conditions|, i requires 0 <= i < |conditions| => conditions[i].0 + " = %s"))
            && |c.params| == |conditions|
            && forall i :: 0 <= i < |conditions| ==> c.params[i] == conditions[i].1
  {
    var conditions := Get(body, "conditions").value.entries;
    var keys := Keys(conditions);
    var clauses := seq(|conditions|, i requires 0 <= i < |conditions| => conditions[i].0 + " = %s");
    assert Clauses(keys) == clauses by {
      forall i | 0 <= i < |keys|
        ensures Clauses(keys)[i] == clauses[i]
      {
        assert keys[i] == conditions[i].0;
        assert Clauses(keys)[i] == keys[i] + " = " + "%s";
      }
    }
  }

  /** The i-th clause compares the i-th condition key and the i-th parameter
      is that key's value. */
  lemma DeleteCommandAligned(body: Dict)
    requires DeleteCommand(body).Ok?
    requires UniqueKeys(Get(body, "conditions").value.entries)
    ensures var conditions := Get(body, "conditions").value.entries;
            var c := DeleteCommand(body).value;
            && |c.params| == |conditions|
            && (forall i :: 0 <= i < |conditions| ==>
                  Clauses(Keys(conditions))[i] == conditions[i].0 + " = %s"
                  && Get(conditions, conditions[i].0) == Some(c.params[i]))
  {
  }

  /** When the collection name and the condition keys carry no percent sign
      there is one slot per parameter. */
  lemma DeleteCommandSlots(body: Dict)
    requires DeleteCommand(body).Ok?
    requires '%' !in Show(Get(body, "collection").value)
    requires var conditions := Get(body, "conditions").value.entries;
             forall i :: 0 <= i < |conditions| ==> '%' !in conditions[i].0
    ensures WellBound(DeleteCommand(body).value)
  {
    var conditions := Get(body, "conditions").value.entries;
    var collection := Get(body, "collection").value;
    var keys := Keys(conditions);
    var heads := seq(|keys|, i requires 0 <= i < |keys| => keys[i] + " = ");
    var prefix := "DELETE FROM " + Show(collection) + " WHERE ";
    assert DeleteCommand(body).value.text == prefix + (Join(" AND ", SlotParts(heads)) + "");
    PlaceholdersAfterPlain(prefix, Join(" AND ", SlotParts(heads)) + "");
    PlaceholdersJoinSlots(" AND ", heads, "");
  }

  /** An empty conditions dict leaves nothing after WHERE. */
  lemma EmptyConditions(body: Dict)
    requires Get(body, "collection").Some?
    requires Get(body, "conditions") == Some(Obj([]))
    ensures DeleteCommand(body) == Ok(Command("DELETE FROM " + Show(Get(body, "collection").value) + " WHERE ", []))
  {
    var collection := Get(body, "collection").value;
    assert Lookup(body, "collection") == Ok(collection);
    assert Lookup(body, "conditions") == Ok(Obj([]));
    assert Keys([]) == [] && Values([]) == [];
    assert Clauses([]) == [];
    assert "DELETE FROM " + Show(collection) + " WHERE " + "" == "DELETE FROM " + Show(collection) + " WHERE ";
  }
}
