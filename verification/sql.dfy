/**
 * A command as the endpoints hand it to the database cursor: the SQL text and
 * the tuple of parameters bound to its `%s` slots.
 */
module Sql {
  import opened PyValues

  datatype Command = Command(text: string, params: seq<Value>)

  /** Number of parameter slots the driver finds in `text`: it scans from the
      left, `%%` is an escaped percent sign and `%s` is a slot. */
  function Placeholders(text: string): nat
    decreases |text|
  {
    if |text| < 2 then 0
    else if text[..2] == "%s" then 1 + Placeholders(text[2..])
    else if text[..2] == "%%" then Placeholders(text[2..])
    else Placeholders(text[1..])
  }

  /** The driver binds the parameters only when there is one per slot. */
  predicate WellBound(c: Command) {
    Placeholders(c.text) == |c.params|
  }

  /** `[x] * n` in Python. */
  function Repeat(x: string, n: nat): (r: seq<string>)
    ensures |r| == n && forall i :: 0 <= i < n ==> r[i] == x
  {
    seq(n, _ => x)
  }

  /** Text without a percent sign opens no slot and cannot start one that a
      following text would complete. */
  lemma {:induction false} PlaceholdersAfterPlain(a: string, b: string)
    requires '%' !in a
    ensures Placeholders(a + b) == Placeholders(b)
    decreases |a|
  {
    if a == [] {
      assert a + b == b;
    } else {
      var ab := a + b;
      assert ab[0] == a[0];
      if |ab| >= 2 {
        assert ab[..2] != "%s" && ab[..2] != "%%";
        assert ab[1..] == a[1..] + b;
      }
      PlaceholdersAfterPlain(a[1..], b);
    }
  }

  lemma PlaceholdersSlot(b: string)
    ensures Placeholders("%s" + b) == 1 + Placeholders(b)
  {
  }

  lemma PlaceholdersPlain(a: string)
    requires '%' !in a
    ensures Placeholders(a) == 0
  {
    PlaceholdersAfterPlain(a, "");
    assert a + "" == a;
  }

  /** A plain prefix, one slot, then the rest. */
  lemma PlaceholdersPlainSlot(a: string, b: string)
    requires '%' !in a
    ensures Placeholders(a + "%s" + b) == 1 + Placeholders(b)
  {
    assert a + "%s" + b == a + ("%s" + b);
    PlaceholdersAfterPlain(a, "%s" + b);
    PlaceholdersSlot(b);
  }

  /** Joining parts that each end in one slot, with a separator without a
      percent sign, gives one slot per part. */
  lemma {:induction false} PlaceholdersJoinSlots(sep: string, heads: seq<string>, b: string)
    requires '%' !in sep
    requires forall i :: 0 <= i < |heads| ==> '%' !in heads[i]
    ensures Placeholders(Join(sep, SlotParts(heads)) + b) == |heads| + Placeholders(b)
    decreases |heads|
  {
    var parts := SlotParts(heads);
    if |heads| == 0 {
      assert Join(sep, parts) + b == b;
    } else if |heads| == 1 {
      assert Join(sep, parts) + b == heads[0] + "%s" + b;
      PlaceholdersPlainSlot(heads[0], b);
    } else {
      assert parts[1..] == SlotParts(heads[1..]);
      var rest := Join(sep, parts[1..]) + b;
      PlaceholdersJoinSlots(sep, heads[1..], b);
      assert Join(sep, parts) + b == heads[0] + "%s" + (sep + rest);
      PlaceholdersPlainSlot(heads[0], sep + rest);
      PlaceholdersAfterPlain(sep, rest);
    }
  }

  /** Each head followed by one `%s`. */
  function SlotParts(heads: seq<string>): (r: seq<string>)
    ensures |r| == |heads|
  {
    seq(|heads|, i requires 0 <= i < |heads| => heads[i] + "%s")
  }
}
