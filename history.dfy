/**
 * The `history` table and `save_to_db`, the recorder's only writer.
 *
 * The table is keyed by `issue` (TEXT PRIMARY KEY) and each row holds an
 * INTEGER `number` and a TEXT `color`; the `created_at` timestamp is written
 * but never read back and is not part of the model. The table is a map from
 * issue to record.
 */
module History {
  import opened Wrappers
  import opened Json
  import opened Python

  /** One row of `history` apart from its key. A `color` of None is SQL NULL. */
  datatype Record = Record(number: int, color: Option<string>)

  /**
   * How the color parameter lands in the TEXT column: NULL for None, an int
   * or bool converted to its decimal text by the column's affinity, a string
   * as it is. A list or dict cannot be bound and an int outside 64 bits
   * overflows: both raise (None here).
   */
  function ColorCell(v: Json): Option<Option<string>>
  {
    match v
    case JNull => Some(None)
    case JBool(b) => Some(Some(if b then "1" else "0"))
    case JInt(i) => if InInt64(i) then Some(Some(IntText(i))) else None
    case JStr(s) => Some(Some(s))
    case _ => None
  }

  /**
   * The body of the `try` in save_to_db for one item: the key
   * `str(item.get('issueNumber'))`, the number `int(item.get('number'))` and
   * the color `item.get('color', '')`, or None where any of that, or binding
   * the three as statement parameters, raises.
   */
  function Convert(item: Json): (r: Option<(string, Record)>)
    ensures r.Some? ==> item.JObject? && InInt64(r.value.1.number)
  {
    match item
    case JObject(fields) =>
      var issueValue := Get(fields, "issueNumber", JNull);
      var issue := Str(issueValue);
      var number := Int(Get(fields, "number", JNull));
      var color := ColorCell(Get(fields, "color", JStr("")));
      if StrFits(issueValue) && number.Some? && InInt64(number.value) && color.Some? then
        Some((issue, Record(number.value, color.value)))
      else None
    case _ => None
  }

  /** The table, `conn.total_changes` and `new_count` while save_to_db walks a batch. */
  datatype Tally = Tally(table: map<string, Record>, changes: nat, newCount: nat)

  /**
   * One pass of the loop: INSERT OR IGNORE adds the row only when its issue
   * is new, and `new_count` grows whenever the connection's cumulative change
   * count is positive, which after the first insert is every converted item.
   */
  function Visit(t: Tally, item: Json): Tally
  {
    match Convert(item)
    case None => t
    case Some((issue, rec)) =>
      var inserted := issue !in t.table;
      var changes := if inserted then t.changes + 1 else t.changes;
      Tally(if inserted then t.table[issue := rec] else t.table,
            changes,
            if changes > 0 then t.newCount + 1 else t.newCount)
  }

  /** The loop of save_to_db over `batch`, starting from the table `h` on a fresh connection. */
  function Run(h: map<string, Record>, batch: seq<Json>): Tally
    decreases |batch|
  {
    if batch == [] then Tally(h, 0, 0)
    else Visit(Run(h, batch[..|batch| - 1]), batch[|batch| - 1])
  }

  /**
   * The items save_to_db walks for the value it is given: none when the value
   * is falsy (the early return), what `for` visits otherwise, and None when
   * the value is truthy but not iterable, where the `for` raises outside the
   * `try` and the exception leaves save_to_db.
   */
  function Batch(items: Json): Option<seq<Json>>
  {
    if !Truthy(items) then Some([]) else Iterate(items)
  }

  /** The issues of the items in `batch` that convert. */
  function KeysOf(batch: seq<Json>): set<string>
  {
    set i | 0 <= i < |batch| && Convert(batch[i]).Some? :: Convert(batch[i]).value.0
  }

  /** How many items of `batch` convert. */
  function WellFormedCount(batch: seq<Json>): nat
    decreases |batch|
  {
    if batch == [] then 0
    else WellFormedCount(batch[..|batch| - 1]) + (if Convert(batch[|batch| - 1]).Some? then 1 else 0)
  }

  /** The `history` table as the recorder's connection sees it. */
  class Store {
    var table: map<string, Record>

    /** init_db: the table is created if missing and an existing one keeps its rows. */
    constructor Open(existing: map<string, Record>)
      ensures table == existing
    {
      table := existing;
    }

    /**
     * save_to_db: returns `new_count` and whether an exception left the
     * function (then nothing was inserted, and nothing committed).
     */
    method Save(items: Json) returns (newCount: nat, raised: bool)
      modifies this
      ensures raised <==> Batch(items).None?
      ensures raised ==> table == old(table) && newCount == 0
      ensures !raised ==> table == Run(old(table), Batch(items).value).table
      ensures !raised ==> newCount == Run(old(table), Batch(items).value).newCount
    {
      if !Truthy(items) {
        return 0, false;
      }
      var visited := Iterate(items);
      if visited.None? {
        return 0, true;
      }
      var batch := visited.value;
      ghost var start := table;
      var changes := 0;
      newCount, raised := 0, false;
      for i := 0 to |batch|
        invariant Run(start, batch[..i]) == Tally(table, changes, newCount)
      {
        assert batch[..i + 1][..i] == batch[..i];
        match Convert(batch[i]) {
          case None =>
          case Some((issue, rec)) =>
            if issue !in table {
              table := table[issue := rec];
              changes := changes + 1;
            }
            if changes > 0 {
              newCount := newCount + 1;
            }
        }
      }
      assert batch[..|batch|] == batch;
    }
  }

  // ---------------------------------------------------------------------------
  // Properties of one save
  // ---------------------------------------------------------------------------

  lemma RunSnoc(h: map<string, Record>, batch: seq<Json>, item: Json)
    ensures Run(h, batch + [item]) == Visit(Run(h, batch), item)
  {
    assert (batch + [item])[..|batch|] == batch;
  }

  /** INSERT OR IGNORE never removes or overwrites a stored row, and raises nothing for a known issue. */
  lemma {:induction false} StoredRowsKept(h: map<string, Record>, batch: seq<Json>)
    ensures var t := Run(h, batch).table;
      h.Keys <= t.Keys && forall k :: k in h ==> t[k] == h[k]
    decreases |batch|
  {
    if batch != [] {
      StoredRowsKept(h, batch[..|batch| - 1]);
    }
  }

  /** After a save the issues are the old ones plus the issue of every item that converts. */
  lemma {:induction false} SavedKeys(h: map<string, Record>, batch: seq<Json>)
    ensures Run(h, batch).table.Keys == h.Keys + KeysOf(batch)
    decreases |batch|
  {
    if batch != [] {
      var n := |batch| - 1;
      var front := batch[..n];
      SavedKeys(h, front);
      assert batch == front + [batch[n]];
      forall k | k in KeysOf(batch)
        ensures k in KeysOf(front) + (if Convert(batch[n]).Some? then {Convert(batch[n]).value.0} else {})
      {
        var i :| 0 <= i < |batch| && Convert(batch[i]).Some? && Convert(batch[i]).value.0 == k;
        if i < n {
          assert front[i] == batch[i];
        }
      }
      forall k | k in KeysOf(front)
        ensures k in KeysOf(batch)
      {
        var i :| 0 <= i < |front| && Convert(front[i]).Some? && Convert(front[i]).value.0 == k;
        assert batch[i] == front[i];
      }
    }
  }

  /**
   * A row the save added comes from the first item in the batch that
   * converts with that issue: later duplicates are ignored.
   */
  lemma {:induction false} FirstItemWins(h: map<string, Record>, batch: seq<Json>, k: string)
    requires k in Run(h, batch).table && k !in h
    ensures exists i :: 0 <= i < |batch| && Convert(batch[i]) == Some((k, Run(h, batch).table[k]))
                        && forall j :: 0 <= j < i ==> !(Convert(batch[j]).Some? && Convert(batch[j]).value.0 == k)
    decreases |batch|
  {
    var n := |batch| - 1;
    var front := batch[..n];
    var before := Run(h, front).table;
    StoredRowsKept(before, [batch[n]]);
    if k in before {
      FirstItemWins(h, front, k);
      var i :| 0 <= i < |front| && Convert(front[i]) == Some((k, before[k]))
                && forall j :: 0 <= j < i ==> !(Convert(front[j]).Some? && Convert(front[j]).value.0 == k);
      assert Run(h, batch).table[k] == before[k];
      assert batch[i] == front[i];
      forall j | 0 <= j < i ensures batch[j] == front[j] { }
    } else {
      SavedKeys(h, front);
      forall j | 0 <= j < n
        ensures !(Convert(batch[j]).Some? && Convert(batch[j]).value.0 == k)
      {
        assert batch[j] == front[j];
        if Convert(front[j]).Some? {
          assert Convert(front[j]).value.0 in KeysOf(front);
        }
      }
    }
  }

  /**
   * An item that does not convert (a missing or malformed `number`, an item
   * that is not an object) is passed over: the save goes on exactly as if it
   * were not in the batch.
   */
  lemma {:induction false} MalformedItemSkipped(h: map<string, Record>, before: seq<Json>, bad: Json, after: seq<Json>)
    requires Convert(bad).None?
    ensures Run(h, before + [bad] + after) == Run(h, before + after)
    decreases |after|
  {
    if after == [] {
      RunSnoc(h, before, bad);
      assert before + [bad] + after == before + [bad];
      assert before + after == before;
    } else {
      var n := |after| - 1;
      MalformedItemSkipped(h, before, bad, after[..n]);
      assert before + [bad] + after == (before + [bad] + after[..n]) + [after[n]];
      assert before + after == (before + after[..n]) + [after[n]];
      RunSnoc(h, before + [bad] + after[..n], after[n]);
      RunSnoc(h, before + after[..n], after[n]);
    }
  }

  /**
   * `total_changes` is the number of rows the save inserted, and `new_count`
   * lies between that and the number of items that convert: it over-counts
   * duplicates met after the first insert but never under-counts.
   */
  lemma {:induction false} NewCountBounds(h: map<string, Record>, batch: seq<Json>)
    ensures var t := Run(h, batch);
      |t.table| == |h| + t.changes && t.changes <= t.newCount <= WellFormedCount(batch)
    decreases |batch|
  {
    if batch != [] {
      NewCountBounds(h, batch[..|batch| - 1]);
    }
  }

  /** Once every converting item's issue is stored, the save changes nothing and counts nothing. */
  lemma {:induction false} KnownIssuesIgnored(h: map<string, Record>, batch: seq<Json>)
    requires KeysOf(batch) <= h.Keys
    ensures Run(h, batch) == Tally(h, 0, 0)
    decreases |batch|
  {
    if batch != [] {
      var n := |batch| - 1;
      var front := batch[..n];
      forall k | k in KeysOf(front) ensures k in KeysOf(batch) {
        var i :| 0 <= i < |front| && Convert(front[i]).Some? && Convert(front[i]).value.0 == k;
        assert batch[i] == front[i];
      }
      KnownIssuesIgnored(h, front);
      if Convert(batch[n]).Some? {
        assert Convert(batch[n]).value.0 in KeysOf(batch);
      }
    }
  }

  /** A falsy value (an empty list, None, `0`, `""`, an empty dict) is returned on at once: nothing is visited. */
  lemma FalsyItemsChangeNothing(h: map<string, Record>, items: Json)
    requires !Truthy(items)
    ensures Batch(items) == Some([]) && Run(h, Batch(items).value) == Tally(h, 0, 0)
  {
  }

  /** Saving the same batch twice stores it once; the second save inserts and counts nothing. */
  lemma SaveTwice(h: map<string, Record>, batch: seq<Json>)
    ensures var once := Run(h, batch).table;
      Run(once, batch) == Tally(once, 0, 0)
  {
    SavedKeys(h, batch);
    KnownIssuesIgnored(Run(h, batch).table, batch);
  }

  /** Over-counting, concretely: the same new item twice inserts one row but counts two. */
  lemma DuplicateCountedTwice()
    ensures var item := JObject([("issueNumber", JStr("20240101")), ("number", JInt(7))]);
      var t := Run(map[], [item, item]);
      t.changes == 1 && t.newCount == 2 && |t.table| == 1
  {
    var item := JObject([("issueNumber", JStr("20240101")), ("number", JInt(7))]);
    var row := Record(7, Some(""));
    assert Get(item.fields, "color", JStr("")) == JStr("");
    assert Convert(item) == Some(("20240101", row));
    assert [item][..0] == [];
    assert Run(map[], [item]) == Tally(map["20240101" := row], 1, 1);
    assert [item, item][..1] == [item];
    assert Run(map[], [item, item]) == Visit(Tally(map["20240101" := row], 1, 1), item);
  }

  // ---------------------------------------------------------------------------
  // How one item becomes a row
  // ---------------------------------------------------------------------------

  /**
   * An item as upstream sends it, `number` given as an int or as its decimal
   * text within 64 bits and `color` a string or absent, becomes the row keyed
   * `str(issueNumber)` holding that number and that color, or '' without one.
   */
  lemma WellFormedItem(fields: seq<(string, Json)>, n: int)
    requires StrFits(Get(fields, "issueNumber", JNull))
    requires InInt64(n)
    requires Lookup(fields, "number") == Some(JInt(n)) || Lookup(fields, "number") == Some(JStr(IntText(n)))
    requires Lookup(fields, "color").None? || Lookup(fields, "color").value.JStr?
    ensures Convert(JObject(fields)) ==
      Some((Str(Get(fields, "issueNumber", JNull)),
            Record(n, Some(if Lookup(fields, "color").None? then "" else Lookup(fields, "color").value.s))))
  {
    Int64FitsStrDigits(n);
    ParseIntText(n);
    assert Int(Get(fields, "number", JNull)) == Some(n);
    var c := Lookup(fields, "color");
    assert ColorCell(Get(fields, "color", JStr(""))) == Some(Some(if c.None? then "" else c.value.s));
  }

  /** An int `issueNumber` too long for `str()` makes the item skipped. */
  lemma HugeIssueSkipped(fields: seq<(string, Json)>, i: int)
    requires Lookup(fields, "issueNumber") == Some(JInt(i)) && !FitsStrDigits(i)
    ensures Convert(JObject(fields)).None?
  {
  }

  /** A missing `issueNumber` is not a reason to skip: the row is stored under the key "None". */
  lemma MissingIssueIsNone(fields: seq<(string, Json)>)
    requires Lookup(fields, "issueNumber").None?
    ensures var number := Int(Get(fields, "number", JNull));
      Convert(JObject(fields)).Some? <==>
        (number.Some? && InInt64(number.value) && ColorCell(Get(fields, "color", JStr(""))).Some?)
    ensures Convert(JObject(fields)).Some? ==> Convert(JObject(fields)).value.0 == "None"
  {
  }

  /**
   * A `color` that cannot be bound as a statement parameter, a list, a dict
   * or an int outside 64 bits, makes the item skipped.
   */
  lemma BadColorSkipped(fields: seq<(string, Json)>)
    requires var c := Lookup(fields, "color");
      c.Some? && (c.value.JArray? || c.value.JObject? || (c.value.JInt? && !InInt64(c.value.i)))
    ensures Convert(JObject(fields)).None?
  {
    assert ColorCell(Get(fields, "color", JStr(""))).None?;
  }

  /** A `number` that is missing, null, a list or dict, or text that is not an int makes the item skipped. */
  lemma BadNumberSkipped(fields: seq<(string, Json)>)
    requires var v := Lookup(fields, "number");
      v.None? || v == Some(JNull) || v.value.JArray? || v.value.JObject? || (v.value.JStr? && ParseInt(v.value.s).None?)
    ensures Convert(JObject(fields)).None?
  {
    assert Int(Get(fields, "number", JNull)).None?;
  }

  /** Every stored number fits the INTEGER column. */
  predicate Int64Numbers(table: map<string, Record>)
  {
    forall k :: k in table ==> InInt64(table[k].number)
  }

  /** save_to_db stores only 64-bit numbers, so a table that had only those keeps having only those. */
  lemma {:induction false} RunKeepsInt64Numbers(h: map<string, Record>, batch: seq<Json>)
    requires Int64Numbers(h)
    ensures Int64Numbers(Run(h, batch).table)
    decreases |batch|
  {
    if batch != [] {
      RunKeepsInt64Numbers(h, batch[..|batch| - 1]);
    }
  }

  /** Items that are strings never convert, so they leave the table and both counts alone. */
  lemma {:induction false} TextItemsChangeNothing(h: map<string, Record>, batch: seq<Json>)
    requires forall i :: 0 <= i < |batch| ==> batch[i].JStr?
    ensures Run(h, batch) == Tally(h, 0, 0)
    decreases |batch|
  {
    if batch != [] {
      TextItemsChangeNothing(h, batch[..|batch| - 1]);
    }
  }

  /**
   * A non-empty string or dict where a list was expected is iterated, by
   * character or by key, without raising, and every item it yields is a
   * string, which `.get` fails on: nothing is saved and `new_count` is 0.
   */
  lemma TextOrDictListDiscarded(h: map<string, Record>, items: Json)
    requires Truthy(items) && (items.JStr? || items.JObject?)
    ensures Batch(items).Some?
    ensures Run(h, Batch(items).value) == Tally(h, 0, 0)
  {
    TextItemsChangeNothing(h, Batch(items).value);
  }
}
