/** The JSONL log flattening pipeline: read one JSON object per non-blank line
    into `LogRow`s, flatten each row's nested `meta` object into dotted keys,
    and compute the CSV header as the fixed columns followed by the sorted
    union of every other key. */
module JsonlToCsv {
  import opened Wrappers
  import opened PyText
  import opened PyJson

  // ---------------------------------------------------------------------------
  // Reading lines
  // ---------------------------------------------------------------------------

  /** One validated log line. `meta` is always an object's entries. */
  datatype LogRow = LogRow(ts: string, userId: string, event: string, meta: seq<(string, Json)>)

  /** What one physical line is, judged on its own. */
  datatype LineKind =
    | Blank
    | BadJson(message: string)
    | NotAnObject(typeName: string)
    | MissingFields(obj: Json)
    | Good(row: LogRow)

  /** The `ValueError` that ends a read, with the 1-based physical line number. */
  datatype ReadError =
    | InvalidJson(lineNo: nat, message: string)
    | ExpectedObject(lineNo: nat, typeName: string)
    | MissingRequired(lineNo: nat, obj: Json)

  predicate IsFailing(k: LineKind) {
    k.BadJson? || k.NotAnObject? || k.MissingFields?
  }

  /** The error a failing line raises when it is line `lineNo`. */
  function ErrorAt(lineNo: nat, k: LineKind): ReadError
    requires IsFailing(k)
  {
    match k
    case BadJson(m) => InvalidJson(lineNo, m)
    case NotAnObject(t) => ExpectedObject(lineNo, t)
    case MissingFields(o) => MissingRequired(lineNo, o)
  }

  /** `str(obj.get(key, ""))`: empty only when the key is absent or holds the
      empty string; `null` becomes `"None"` and so passes the check. */
  function RequiredField(fields: seq<(string, Json)>, key: string): (r: string)
    ensures r == "" <==> (Lookup(fields, key).None? || Lookup(fields, key) == Some(Str("")))
    ensures Lookup(fields, key) == Some(Null) ==> r == "None"
  {
    PyStr(Lookup(fields, key).GetOr(Str("")))
  }

  /** `obj.get("meta", {})`, kept when it is an object and wrapped as
      `{"meta": value}` when it is not. */
  function MetaOf(fields: seq<(string, Json)>): (m: seq<(string, Json)>)
    ensures Lookup(fields, "meta").None? ==> m == []
    ensures Lookup(fields, "meta").Some? && Lookup(fields, "meta").value.Obj? ==> m == Lookup(fields, "meta").value.fields
    ensures Lookup(fields, "meta").Some? && !Lookup(fields, "meta").value.Obj? ==> m == [("meta", Lookup(fields, "meta").value)]
  {
    var raw := Lookup(fields, "meta").GetOr(Obj([]));
    if raw.Obj? then raw.fields else [("meta", raw)]
  }

  /** The per-line logic of `read_jsonl`: strip, skip if blank, then the three
      checks in their order (JSON syntax, top-level object, required fields). */
  function Classify(line: string, parse: string -> Parse): LineKind
  {
    var text := Strip(line);
    if text == "" then Blank
    else
      match parse(text)
      case Invalid(msg) => BadJson(msg)
      case Valid(v) =>
        if !v.Obj? then NotAnObject(TypeName(v))
        else
          var ts := RequiredField(v.fields, "ts");
          var userId := RequiredField(v.fields, "user_id");
          var event := RequiredField(v.fields, "event");
          if ts == "" || userId == "" || event == "" then MissingFields(v)
          else Good(LogRow(ts, userId, event, MetaOf(v.fields)))
  }

  /** The checks of one line run in their order: blank lines are skipped, then
      JSON syntax, then the top-level object, then the three required fields. */
  lemma ClassifyOrder(line: string, parse: string -> Parse)
    ensures Classify(line, parse).Blank? <==> AllSpace(line)
    ensures Classify(line, parse).BadJson? <==> !AllSpace(line) && parse(Strip(line)).Invalid?
    ensures Classify(line, parse).NotAnObject? <==> !AllSpace(line) && parse(Strip(line)).Valid? && !parse(Strip(line)).value.Obj?
    ensures Classify(line, parse).MissingFields? ==>
              (var o := Classify(line, parse).obj;
               && o == parse(Strip(line)).value && o.Obj?
               && (RequiredField(o.fields, "ts") == "" || RequiredField(o.fields, "user_id") == "" ||
                   RequiredField(o.fields, "event") == ""))
    ensures Classify(line, parse).Good? ==>
              (var row := Classify(line, parse).row;
               && row.ts != "" && row.userId != "" && row.event != ""
               && parse(Strip(line)).Valid? && parse(Strip(line)).value.Obj?
               && var fields := parse(Strip(line)).value.fields;
                  row == LogRow(RequiredField(fields, "ts"), RequiredField(fields, "user_id"),
                                RequiredField(fields, "event"), MetaOf(fields)))
  {
    StripSpec(line);
  }

  /** The lines that are not all whitespace, in their order. */
  function NonBlank(lines: seq<string>): (r: seq<string>)
    ensures |r| <= |lines|
  {
    if lines == [] then []
    else
      var last := lines[|lines| - 1];
      NonBlank(lines[..|lines| - 1]) + (if AllSpace(last) then [] else [last])
  }

  /** No line of `lines` fails on its own. */
  predicate NoneFail(lines: seq<string>, parse: string -> Parse) {
    forall i :: 0 <= i < |lines| ==> !IsFailing(Classify(lines[i], parse))
  }

  /** `rows` are the rows that the lines `nb` give, one each, in order. */
  predicate RowsMatch(nb: seq<string>, parse: string -> Parse, rows: seq<LogRow>) {
    |rows| == |nb| && forall k :: 0 <= k < |rows| ==> Classify(nb[k], parse) == Good(rows[k])
  }

  /** What `read_jsonl` returns for `lines`: on success one row per non-blank
      line, in order, and no line failing; on failure the error of the first
      failing line, numbered by its physical position (blank lines included). */
  predicate ReadSpec(lines: seq<string>, parse: string -> Parse, r: Result<seq<LogRow>, ReadError>) {
    match r
    case Success(rows) => NoneFail(lines, parse) && RowsMatch(NonBlank(lines), parse, rows)
    case Failure(e) =>
      && 1 <= e.lineNo <= |lines|
      && IsFailing(Classify(lines[e.lineNo - 1], parse))
      && e == ErrorAt(e.lineNo, Classify(lines[e.lineNo - 1], parse))
      && NoneFail(lines[..e.lineNo - 1], parse)
  }

  /** `read_jsonl` on the file's physical lines, with `parse` standing for `json.loads`. */
  method ReadJsonl(lines: seq<string>, parse: string -> Parse) returns (r: Result<seq<LogRow>, ReadError>)
    ensures ReadSpec(lines, parse, r)
  {
    var rows: seq<LogRow> := [];
    ghost var nb: seq<string> := [];
    for i := 0 to |lines|
      invariant NoneFail(lines[..i], parse)
      invariant nb == NonBlank(lines[..i])
      invariant RowsMatch(nb, parse, rows)
    {
      var lineNo := i + 1;
      NonBlankNext(lines, i);
      var line := Strip(lines[i]);
      if line == "" {
        NoneFailStep(lines, parse, i);
        continue;
      }
      var obj := parse(line);
      if obj.Invalid? {
        assert Classify(lines[i], parse) == BadJson(obj.message);
        FirstFailure(lines, parse, i);
        return Failure(InvalidJson(lineNo, obj.message));
      }
      if !obj.value.Obj? {
        assert Classify(lines[i], parse) == NotAnObject(TypeName(obj.value));
        FirstFailure(lines, parse, i);
        return Failure(ExpectedObject(lineNo, TypeName(obj.value)));
      }
      var fields := obj.value.fields;
      var ts := PyStr(Lookup(fields, "ts").GetOr(Str("")));
      var userId := PyStr(Lookup(fields, "user_id").GetOr(Str("")));
      var event := PyStr(Lookup(fields, "event").GetOr(Str("")));
      var metaRaw := Lookup(fields, "meta").GetOr(Obj([]));
      var meta := if metaRaw.Obj? then metaRaw.fields else [("meta", metaRaw)];
      if ts == "" || userId == "" || event == "" {
        assert Classify(lines[i], parse) == MissingFields(obj.value);
        FirstFailure(lines, parse, i);
        return Failure(MissingRequired(lineNo, obj.value));
      }
      assert Classify(lines[i], parse) == Good(LogRow(ts, userId, event, meta));
      NoneFailStep(lines, parse, i);
      RowsAppend(nb, parse, rows, lines[i], LogRow(ts, userId, event, meta));
      rows := rows + [LogRow(ts, userId, event, meta)];
      nb := nb + [lines[i]];
    }
    assert lines[..|lines|] == lines;
    return Success(rows);
  }

  lemma NoneFailStep(lines: seq<string>, parse: string -> Parse, i: nat)
    requires i < |lines| && NoneFail(lines[..i], parse) && !IsFailing(Classify(lines[i], parse))
    ensures NoneFail(lines[..i + 1], parse)
  {
  }

  lemma RowsAppend(nb: seq<string>, parse: string -> Parse, rows: seq<LogRow>, x: string, row: LogRow)
    requires RowsMatch(nb, parse, rows) && Classify(x, parse) == Good(row)
    ensures RowsMatch(nb + [x], parse, rows + [row])
  {
  }

  lemma NonBlankNext(lines: seq<string>, i: nat)
    requires i < |lines|
    ensures NonBlank(lines[..i + 1]) == NonBlank(lines[..i]) + (if Strip(lines[i]) == "" then [] else [lines[i]])
  {
    NonBlankStep(lines, i);
    StripSpec(lines[i]);
  }

  lemma FirstFailure(lines: seq<string>, parse: string -> Parse, i: nat)
    requires i < |lines| && NoneFail(lines[..i], parse) && IsFailing(Classify(lines[i], parse))
    ensures ReadSpec(lines, parse, Failure(ErrorAt(i + 1, Classify(lines[i], parse))))
  {
  }

  lemma NonBlankStep(lines: seq<string>, i: nat)
    requires i < |lines|
    ensures NonBlank(lines[..i + 1]) == NonBlank(lines[..i]) + (if AllSpace(lines[i]) then [] else [lines[i]])
  {
    assert lines[..i + 1][..i] == lines[..i];
  }

  lemma {:induction false} NonBlankIdempotent(lines: seq<string>)
    ensures NonBlank(NonBlank(lines)) == NonBlank(lines)
  {
    if lines != [] {
      var init := lines[..|lines| - 1];
      var last := lines[|lines| - 1];
      NonBlankIdempotent(init);
      var tail := if AllSpace(last) then [] else [last];
      NonBlankAppend(NonBlank(init), tail);
    }
  }

  lemma {:induction false} NonBlankAppend(a: seq<string>, b: seq<string>)
    requires |b| <= 1
    ensures NonBlank(a + b) == NonBlank(a) + NonBlank(b)
  {
    if b != [] {
      assert (a + b)[..|a + b| - 1] == a;
      assert NonBlank(b) == NonBlank([]) + (if AllSpace(b[0]) then [] else [b[0]]);
    } else {
      assert a + b == a;
    }
  }

  lemma {:induction false} NonBlankElements(lines: seq<string>)
    ensures forall x :: x in NonBlank(lines) ==> x in lines && !AllSpace(x)
    ensures forall x :: x in lines && !AllSpace(x) ==> x in NonBlank(lines)
  {
    if lines != [] {
      var init := lines[..|lines| - 1];
      NonBlankElements(init);
      assert lines == init + [lines[|lines| - 1]];
    }
  }

  /** A read succeeds exactly when no line fails. */
  lemma SuccessIffNoLineFails(lines: seq<string>, parse: string -> Parse, r: Result<seq<LogRow>, ReadError>)
    requires ReadSpec(lines, parse, r)
    ensures r.Success? <==> NoneFail(lines, parse)
  {
    if r.Failure? {
      var n := r.error.lineNo - 1;
      assert IsFailing(Classify(lines[n], parse));
    }
  }

  lemma NoneFailAppend(a: seq<string>, b: seq<string>, parse: string -> Parse)
    ensures NoneFail(a + b, parse) <==> NoneFail(a, parse) && NoneFail(b, parse)
  {
    if NoneFail(a, parse) && NoneFail(b, parse) {
      forall i | 0 <= i < |a + b| ensures !IsFailing(Classify((a + b)[i], parse)) {
        if i >= |a| {
          assert (a + b)[i] == b[i - |a|];
        }
      }
    }
    if NoneFail(a + b, parse) {
      forall i | 0 <= i < |a| ensures !IsFailing(Classify(a[i], parse)) {
        assert (a + b)[i] == a[i];
      }
      forall i | 0 <= i < |b| ensures !IsFailing(Classify(b[i], parse)) {
        assert (a + b)[|a| + i] == b[i];
      }
    }
  }

  /** Some line fails exactly when some non-blank line fails. */
  lemma {:induction false} FailingLinesAreNonBlank(lines: seq<string>, parse: string -> Parse)
    ensures NoneFail(lines, parse) <==> NoneFail(NonBlank(lines), parse)
  {
    if lines != [] {
      var init := lines[..|lines| - 1];
      var last := lines[|lines| - 1];
      FailingLinesAreNonBlank(init, parse);
      var kept := if AllSpace(last) then [] else [last];
      SplitLast(lines);
      NoneFailAppend(init, [last], parse);
      NoneFailAppend(NonBlank(init), kept, parse);
      assert NonBlank(lines) == NonBlank(init) + kept;
      if AllSpace(last) {
        BlankLineIsBlank(last, parse);
        assert NoneFail([last], parse);
      }
    }
  }

  lemma SplitLast<T>(s: seq<T>)
    requires s != []
    ensures s == s[..|s| - 1] + [s[|s| - 1]]
  {
  }

  lemma BlankLineIsBlank(line: string, parse: string -> Parse)
    requires AllSpace(line)
    ensures Classify(line, parse) == Blank
  {
    StripSpec(line);
  }

  /** The rows that a sequence of good lines gives are determined by the lines. */
  lemma RowsMatchUnique(nb: seq<string>, parse: string -> Parse, a: seq<LogRow>, b: seq<LogRow>)
    requires RowsMatch(nb, parse, a) && RowsMatch(nb, parse, b)
    ensures a == b
  {
    forall k | 0 <= k < |a| ensures a[k] == b[k] {
      assert Good(a[k]) == Classify(nb[k], parse) == Good(b[k]);
    }
  }

  /** Blank lines do not change what is read: the lines without their blank
      ones read successfully exactly when the lines do, and to the same rows. */
  lemma BlankLinesIgnored(lines: seq<string>, parse: string -> Parse,
                          r1: Result<seq<LogRow>, ReadError>, r2: Result<seq<LogRow>, ReadError>)
    requires ReadSpec(lines, parse, r1)
    requires ReadSpec(NonBlank(lines), parse, r2)
    ensures r1.Success? <==> r2.Success?
    ensures r1.Success? ==> r1 == r2
  {
    SuccessIffNoLineFails(lines, parse, r1);
    SuccessIffNoLineFails(NonBlank(lines), parse, r2);
    FailingLinesAreNonBlank(lines, parse);
    if r1.Success? && r2.Success? {
      NonBlankIdempotent(lines);
      RowsMatchUnique(NonBlank(lines), parse, r1.value, r2.value);
    }
  }

  /** Reported line numbers count every physical line, blank ones included:
      a bad third line is reported as line 3 even when lines 1 and 2 are blank. */
  lemma BlankLinesAreCounted(parse: string -> Parse, r: Result<seq<LogRow>, ReadError>)
    requires parse("x").Invalid?
    requires ReadSpec(["", " \t", "x"], parse, r)
    ensures r == Failure(InvalidJson(3, parse("x").message))
  {
    var lines := ["", " \t", "x"];
    assert AllSpace(lines[0]) && AllSpace(lines[1]);
    BlankLineIsBlank(lines[0], parse);
    BlankLineIsBlank(lines[1], parse);
    StripOfTrimmed("x");
    assert Classify(lines[2], parse) == BadJson(parse("x").message);
  }

  // ---------------------------------------------------------------------------
  // Flattening
  // ---------------------------------------------------------------------------

  /** The dotted key of entry `k` under `prefix` (`str(k)` when there is no prefix). */
  function Key(prefix: string, k: string): string {
    if prefix != "" then prefix + "." + k else k
  }

  function Concat<T>(xss: seq<seq<T>>): seq<T> {
    if xss == [] then [] else Concat(xss[..|xss| - 1]) + xss[|xss| - 1]
  }

  /** The writes `_flatten(prefix, v, out)` makes, in order: an object
      contributes its entries' writes (an empty object none), a list one write
      of its JSON text, and any other value one write of itself. */
  function Leaves(prefix: string, j: Json): seq<(string, Json)>
    decreases j
  {
    match j
    case Obj(fields) =>
      Concat(seq(|fields|, i requires 0 <= i < |fields| => Leaves(Key(prefix, fields[i].0), fields[i].1)))
    case Arr(_) => [(prefix, Str(Dumps(j)))]
    case _ => [(prefix, j)]
  }

  /** A dictionary after a sequence of `out[key] = value` writes, the later ones winning. */
  function Apply(out: map<string, Json>, writes: seq<(string, Json)>): map<string, Json> {
    if writes == [] then out
    else Apply(out, writes[..|writes| - 1])[writes[|writes| - 1].0 := writes[|writes| - 1].1]
  }

  lemma {:induction false} ApplyAppend(out: map<string, Json>, a: seq<(string, Json)>, b: seq<(string, Json)>)
    ensures Apply(out, a + b) == Apply(Apply(out, a), b)
  {
    if b == [] {
      assert a + b == a;
    } else {
      var b' := b[..|b| - 1];
      assert (a + b)[..|a + b| - 1] == a + b';
      ApplyAppend(out, a, b');
    }
  }

  lemma {:induction false} ConcatMember<T>(xss: seq<seq<T>>, x: T)
    ensures x in Concat(xss) <==> exists i :: 0 <= i < |xss| && x in xss[i]
  {
    if xss != [] {
      ConcatMember(xss[..|xss| - 1], x);
      if x in Concat(xss[..|xss| - 1]) {
        var i :| 0 <= i < |xss| - 1 && x in xss[..|xss| - 1][i];
        assert x in xss[i];
      }
    }
  }

  /** Every write of `_flatten` stores a scalar: nested objects never become values. */
  lemma {:induction false} LeavesAreScalars(prefix: string, j: Json)
    ensures forall w :: w in Leaves(prefix, j) ==> IsScalar(w.1)
    decreases j
  {
    match j
    case Obj(fields) =>
      var parts := seq(|fields|, i requires 0 <= i < |fields| => Leaves(Key(prefix, fields[i].0), fields[i].1));
      forall w | w in Leaves(prefix, j) ensures IsScalar(w.1) {
        ConcatMember(parts, w);
        var i :| 0 <= i < |parts| && w in parts[i];
        LeavesAreScalars(Key(prefix, fields[i].0), fields[i].1);
      }
    case Arr(_) =>
    case _ =>
  }

  /** Under a non-empty prefix every write goes to the prefix itself or to a
      key below `prefix.`; when the value is an object, always below `prefix.`. */
  lemma {:induction false} LeavesUnderPrefix(prefix: string, j: Json)
    requires prefix != ""
    ensures forall w :: w in Leaves(prefix, j) ==> w.0 == prefix || StartsWith(w.0, prefix + ".")
    ensures j.Obj? ==> forall w :: w in Leaves(prefix, j) ==> StartsWith(w.0, prefix + ".")
    decreases j
  {
    match j
    case Obj(fields) =>
      var parts := seq(|fields|, i requires 0 <= i < |fields| => Leaves(Key(prefix, fields[i].0), fields[i].1));
      forall w | w in Leaves(prefix, j) ensures StartsWith(w.0, prefix + ".") {
        ConcatMember(parts, w);
        var i :| 0 <= i < |parts| && w in parts[i];
        var key := Key(prefix, fields[i].0);
        LeavesUnderPrefix(key, fields[i].1);
        assert key[..|prefix + "."|] == prefix + ".";
        if w.0 != key {
          assert w.0[..|key + "."|] == key + ".";
          assert w.0[..|prefix + "."|] == (key + ".")[..|prefix + "."|];
        }
      }
    case Arr(_) =>
    case _ =>
  }

  /** A sequence of writes adds exactly the written keys, keeps every other
      entry, and leaves each key holding its old value or a value written to it. */
  lemma {:induction false} ApplyEffect(out: map<string, Json>, writes: seq<(string, Json)>)
    ensures Apply(out, writes).Keys == out.Keys + set w | w in writes :: w.0
    ensures forall k :: k in Apply(out, writes) ==>
              (k in out && Apply(out, writes)[k] == out[k]) || (k, Apply(out, writes)[k]) in writes
    ensures forall k :: k in out && (forall w :: w in writes ==> w.0 != k) ==> Apply(out, writes)[k] == out[k]
  {
    if writes != [] {
      var init := writes[..|writes| - 1];
      ApplyEffect(out, init);
      assert writes == init + [writes[|writes| - 1]];
    }
  }

  /** The last write to a key wins: after the writes, the key of a write that
      no later write overrides holds that write's value. */
  lemma {:induction false} ApplyLastWriteWins(out: map<string, Json>, writes: seq<(string, Json)>, i: nat)
    requires i < |writes| && LastWriteTo(writes, i)
    ensures writes[i].0 in Apply(out, writes) && Apply(out, writes)[writes[i].0] == writes[i].1
  {
    if i < |writes| - 1 {
      var init := writes[..|writes| - 1];
      assert LastWriteTo(init, i) by {
        assert forall j :: i < j < |init| ==> init[j] == writes[j];
      }
      ApplyLastWriteWins(out, init, i);
    }
  }

  /** No later write in `writes` goes to the key of write `i`. */
  predicate LastWriteTo(writes: seq<(string, Json)>, i: nat)
    requires i < |writes|
  {
    forall j :: i < j < |writes| ==> writes[j].0 != writes[i].0
  }

  /** The dictionary `out` that `_flatten` writes into. */
  class FlatDict {
    var entries: map<string, Json>

    constructor (init: map<string, Json>)
      ensures entries == init
    {
      entries := init;
    }

    /** `_flatten(prefix, obj, out)`: the entries afterwards are the entries
        before with the writes of `Leaves(prefix, obj)` applied in order. */
    method Flatten(prefix: string, obj: Json)
      modifies this
      ensures entries == Apply(old(entries), Leaves(prefix, obj))
      decreases obj
    {
      match obj {
        case Obj(fields) =>
          ghost var parts := seq(|fields|, i requires 0 <= i < |fields| => Leaves(Key(prefix, fields[i].0), fields[i].1));
          ghost var start := entries;
          var i := 0;
          while i < |fields|
            invariant 0 <= i <= |fields|
            invariant entries == Apply(start, Concat(parts[..i]))
          {
            var (k, v) := fields[i];
            var key := if prefix != "" then prefix + "." + k else k;
            Flatten(key, v);
            ApplyAppend(start, Concat(parts[..i]), parts[i]);
            assert parts[..i + 1][..i] == parts[..i];
            i := i + 1;
          }
          assert parts[..|fields|] == parts;
        case Arr(_) =>
          entries := entries[prefix := Str(Dumps(obj))];
        case _ =>
          entries := entries[prefix := obj];
      }
    }
  }

  // ---------------------------------------------------------------------------
  // Flat rows
  // ---------------------------------------------------------------------------

  /** The three fixed columns, in their order. */
  const Fixed: seq<string> := ["ts", "user_id", "event"]

  function BaseRow(r: LogRow): map<string, Json> {
    map["ts" := Str(r.ts), "user_id" := Str(r.userId), "event" := Str(r.event)]
  }

  /** The flat row `to_flat_dicts` builds for one `LogRow`. */
  function FlatRowOf(r: LogRow): map<string, Json> {
    Apply(BaseRow(r), Leaves("meta", Obj(r.meta)))
  }

  /** `to_flat_dicts`: one flat row per log row, in order. */
  method ToFlatDicts(rows: seq<LogRow>) returns (flat: seq<map<string, Json>>)
    ensures |flat| == |rows|
    ensures forall i :: 0 <= i < |rows| ==> flat[i] == FlatRowOf(rows[i])
  {
    flat := [];
    for i := 0 to |rows|
      invariant |flat| == i
      invariant forall j :: 0 <= j < i ==> flat[j] == FlatRowOf(rows[j])
    {
      var r := rows[i];
      var out := new FlatDict(map["ts" := Str(r.ts), "user_id" := Str(r.userId), "event" := Str(r.event)]);
      out.Flatten("meta", Obj(r.meta));
      flat := flat + [out.entries];
    }
  }

  /** Every flat row holds `ts`, `user_id` and `event` with the row's values;
      every other key lies below `meta.` (so it never collides with those
      three) and is written by the flattening; no value is a list or object. */
  lemma FlatRowShape(r: LogRow)
    ensures var f := FlatRowOf(r);
            && "ts" in f && f["ts"] == Str(r.ts)
            && "user_id" in f && f["user_id"] == Str(r.userId)
            && "event" in f && f["event"] == Str(r.event)
            && (forall k :: k in f && k !in Fixed ==> StartsWith(k, "meta."))
            && (forall k :: k in f ==> IsScalar(f[k]))
            && f.Keys == {"ts", "user_id", "event"} + set w | w in Leaves("meta", Obj(r.meta)) :: w.0
  {
    var writes := Leaves("meta", Obj(r.meta));
    var base := BaseRow(r);
    var f := FlatRowOf(r);
    MetaWrites(r.meta);
    ApplyEffect(base, writes);
    FixedColumnsKept(base, writes, "ts");
    FixedColumnsKept(base, writes, "user_id");
    FixedColumnsKept(base, writes, "event");
    forall k | k in f && k !in Fixed ensures StartsWith(k, "meta.") {
      assert k !in base;
      assert (k, f[k]) in writes;
    }
    forall k | k in f ensures IsScalar(f[k]) {
      if k !in base || f[k] != base[k] {
        assert (k, f[k]) in writes;
      }
    }
  }

  /** A fixed column that no write touches keeps its value. */
  lemma FixedColumnsKept(base: map<string, Json>, writes: seq<(string, Json)>, k: string)
    requires k in base && k in Fixed
    requires forall w :: w in writes ==> w.0 !in Fixed
    ensures k in Apply(base, writes) && Apply(base, writes)[k] == base[k]
  {
    ApplyEffect(base, writes);
  }

  /** The writes of a `meta` object go below `meta.`, so never to one of the
      three fixed columns, and store scalars only. */
  lemma MetaWrites(meta: seq<(string, Json)>)
    ensures forall w :: w in Leaves("meta", Obj(meta)) ==>
              StartsWith(w.0, "meta.") && w.0 !in Fixed && IsScalar(w.1)
  {
    LeavesUnderPrefix("meta", Obj(meta));
    LeavesAreScalars("meta", Obj(meta));
    assert "user_id"[..5] != "meta." by { assert "user_id"[0] != "meta."[0]; }
    assert "event"[..5] != "meta." by { assert "event"[0] != "meta."[0]; }
    forall w | w in Leaves("meta", Obj(meta)) ensures w.0 !in Fixed {
      assert StartsWith(w.0, "meta.");
    }
  }

  /** A `meta` that is not an object is kept whole under the key `meta.meta`. */
  lemma NonObjectMetaBecomesMetaMeta(r: LogRow, v: Json)
    requires r.meta == [("meta", v)]
    requires !v.Obj?
    ensures var f := FlatRowOf(r);
            && f.Keys == {"ts", "user_id", "event", "meta.meta"}
            && f["meta.meta"] == (if v.Arr? then Str(Dumps(v)) else v)
  {
    var leaf := if v.Arr? then Str(Dumps(v)) else v;
    SingleEntryLeaves("meta", "meta", v);
    assert Key("meta", "meta") == "meta.meta";
    assert Leaves("meta", Obj(r.meta)) == [("meta.meta", leaf)];
    ApplySingle(BaseRow(r), "meta.meta", leaf);
  }

  /** A nested object under `meta` gives one column per leaf, with the dotted
      key of its path, and no column for the object itself. */
  lemma NestedMetaFlattens(r: LogRow)
    requires r.meta == [("a", Obj([("b", Num("1"))]))]
    ensures var f := FlatRowOf(r);
            && f.Keys == {"ts", "user_id", "event", "meta.a.b"}
            && f["meta.a.b"] == Num("1")
            && "meta.a" !in f
  {
    SingleEntryLeaves("meta", "a", Obj([("b", Num("1"))]));
    SingleEntryLeaves("meta.a", "b", Num("1"));
    assert Key("meta", "a") == "meta.a";
    assert Key("meta.a", "b") == "meta.a.b";
    assert Leaves("meta", Obj(r.meta)) == [("meta.a.b", Num("1"))];
    ApplySingle(BaseRow(r), "meta.a.b", Num("1"));
    assert |"meta.a"| == 6 && |"meta.a.b"| == 8;
  }

  /** A list under `meta` is one column holding the list's JSON text. */
  lemma ListMetaIsJsonText(r: LogRow)
    requires r.meta == [("tags", Arr([Str("x"), Str("y")]))]
    ensures var f := FlatRowOf(r);
            && f.Keys == {"ts", "user_id", "event", "meta.tags"}
            && f["meta.tags"] == Str("[\"x\", \"y\"]")
  {
    var tags := Arr([Str("x"), Str("y")]);
    SingleEntryLeaves("meta", "tags", tags);
    assert Key("meta", "tags") == "meta.tags";
    DumpsOfTags();
    assert Leaves("meta.tags", tags) == [("meta.tags", Str(Dumps(tags)))];
    ApplySingle(BaseRow(r), "meta.tags", Str("[\"x\", \"y\"]"));
    assert |"meta.tags"| == 9;
  }

  lemma DumpsOfTags()
    ensures Dumps(Arr([Str("x"), Str("y")])) == "[\"x\", \"y\"]"
  {
    var tags := Arr([Str("x"), Str("y")]);
    DumpsPlainChar('x');
    DumpsPlainChar('y');
    var parts := seq(2, i requires 0 <= i < 2 => Dumps(tags.items[i]));
    assert parts == ["\"x\"", "\"y\""];
    JoinTwo(parts, ", ");
    assert Dumps(tags) == "[" + Join(parts, ", ") + "]";
    assert "[" + "\"x\"" + ", " + "\"y\"" + "]" == "[\"x\", \"y\"]";
  }

  /** `json.dumps` of a one-character string that needs no escape. */
  lemma DumpsPlainChar(c: char)
    requires ' ' <= c && c != '"' && c != '\\'
    ensures Dumps(Str([c])) == ['"', c, '"']
  {
    assert Escape([c]) == EscapeChar(c) + Escape([]);
  }

  lemma JoinTwo(parts: seq<string>, sep: string)
    requires |parts| == 2
    ensures Join(parts, sep) == parts[0] + sep + parts[1]
  {
    assert parts[1..] == [parts[1]];
  }

  lemma ApplySingle(out: map<string, Json>, k: string, v: Json)
    ensures Apply(out, [(k, v)]) == out[k := v]
  {
    assert [(k, v)][..0] == [];
  }

  /** An object with one entry writes what that entry's value writes. */
  lemma SingleEntryLeaves(prefix: string, k: string, v: Json)
    ensures Leaves(prefix, Obj([(k, v)])) == Leaves(Key(prefix, k), v)
  {
    var fields := [(k, v)];
    var parts := seq(|fields|, i requires 0 <= i < |fields| => Leaves(Key(prefix, fields[i].0), fields[i].1));
    assert parts == [Leaves(Key(prefix, k), v)];
    assert parts[..0] == [];
    assert Concat(parts) == Concat(parts[..0]) + parts[0];
    assert Leaves(prefix, Obj(fields)) == Concat(parts);
  }

  // ---------------------------------------------------------------------------
  // The CSV header
  // ---------------------------------------------------------------------------

  /** The union of the keys of all rows. */
  function AllKeys(rows: seq<map<string, Json>>): set<string> {
    if rows == [] then {} else AllKeys(rows[..|rows| - 1]) + rows[|rows| - 1].Keys
  }

  lemma {:induction false} AllKeysMembership(rows: seq<map<string, Json>>, k: string)
    ensures k in AllKeys(rows) <==> exists i :: 0 <= i < |rows| && k in rows[i]
  {
    if rows != [] {
      var init := rows[..|rows| - 1];
      AllKeysMembership(init, k);
      if k in AllKeys(init) {
        var i :| 0 <= i < |init| && k in init[i];
        assert k in rows[i];
      }
    }
  }

  predicate StrictlyAscending(s: seq<string>) {
    forall i, j :: 0 <= i < j < |s| ==> Less(s[i], s[j])
  }

  /** `fieldnames` of `write_csv`: the three fixed columns, then the strictly
      ascending list of exactly the other keys that some row has. */
  ghost predicate IsHeader(h: seq<string>, rows: seq<map<string, Json>>) {
    && |h| >= 3
    && h[..3] == Fixed
    && StrictlyAscending(h[3..])
    && forall k :: k in h[3..] <==> k in AllKeys(rows) && k !in Fixed
  }

  /** The least element of a non-empty set of strings. */
  method Least(s: set<string>) returns (m: string)
    requires s != {}
    ensures m in s
    ensures forall k :: k in s && k != m ==> Less(m, k)
  {
    m :| m in s;
    var todo := s - {m};
    while todo != {}
      invariant m in s && m !in todo && todo <= s
      invariant forall k :: k in s && k !in todo && k != m ==> Less(m, k)
      decreases todo
    {
      var k :| k in todo;
      if Less(k, m) {
        forall x | x in s && x !in todo - {k} && x != k ensures Less(k, x) {
          if x != m {
            LessTransitive(k, m, x);
          }
        }
        m := k;
      } else {
        LessTotal(m, k);
      }
      todo := todo - {k};
    }
  }

  /** `sorted(keys)` of a set of distinct strings. */
  method SortedKeys(s: set<string>) returns (r: seq<string>)
    ensures StrictlyAscending(r)
    ensures forall k :: k in r <==> k in s
  {
    r := [];
    var rest := s;
    while rest != {}
      invariant StrictlyAscending(r)
      invariant forall k :: k in s <==> k in r || k in rest
      invariant forall a, b :: a in r && b in rest ==> Less(a, b)
      decreases rest
    {
      var m := Least(rest);
      r := r + [m];
      rest := rest - {m};
    }
  }

  /** The header computation of `write_csv`. */
  method Fieldnames(rows: seq<map<string, Json>>) returns (h: seq<string>)
    ensures IsHeader(h, rows)
  {
    var allKeys: set<string> := {};
    for i := 0 to |rows|
      invariant allKeys == AllKeys(rows[..i])
    {
      assert rows[..i + 1][..i] == rows[..i];
      allKeys := allKeys + rows[i].Keys;
    }
    assert rows[..|rows|] == rows;
    var rest := SortedKeys(set k | k in allKeys && k !in Fixed);
    h := Fixed + rest;
    assert h[..3] == Fixed && h[3..] == rest;
  }

  /** Two strictly ascending lists with the same elements are equal. */
  lemma {:induction false} AscendingUnique(a: seq<string>, b: seq<string>)
    requires StrictlyAscending(a) && StrictlyAscending(b)
    requires forall k :: k in a <==> k in b
    ensures a == b
  {
    if a != [] {
      assert a[0] in b;
      assert b[0] in a;
      if a[0] != b[0] {
        var i :| 0 <= i < |b| && b[i] == a[0];
        var j :| 0 <= j < |a| && a[j] == b[0];
        assert Less(b[0], a[0]) && Less(a[0], b[0]);
        LessAsymmetric(a[0], b[0]);
        assert false;
      }
      forall k ensures k in a[1..] <==> k in b[1..] {
        if k in a[1..] {
          var i :| 1 <= i < |a| && a[i] == k;
          assert Less(a[0], k);
          LessIrreflexive(k);
          assert k in b;
        }
        if k in b[1..] {
          var i :| 1 <= i < |b| && b[i] == k;
          assert Less(b[0], k);
          LessIrreflexive(k);
          assert k in a;
        }
      }
      AscendingUnique(a[1..], b[1..]);
      assert a == [a[0]] + a[1..] && b == [b[0]] + b[1..];
    } else if b != [] {
      HeadIsMember(b);
      assert false;
    }
  }

  lemma HeadIsMember(s: seq<string>)
    requires s != []
    ensures s[0] in s
  {
  }

  /** The header depends only on which rows there are, not on their order:
      any two headers of rows that are permutations of each other are equal. */
  lemma HeaderIgnoresRowOrder(h1: seq<string>, rows1: seq<map<string, Json>>,
                              h2: seq<string>, rows2: seq<map<string, Json>>)
    requires IsHeader(h1, rows1) && IsHeader(h2, rows2)
    requires multiset(rows1) == multiset(rows2)
    ensures h1 == h2
  {
    forall k ensures k in AllKeys(rows1) <==> k in AllKeys(rows2) {
      AllKeysMembership(rows1, k);
      AllKeysMembership(rows2, k);
      if k in AllKeys(rows1) {
        var i :| 0 <= i < |rows1| && k in rows1[i];
        assert rows1[i] in multiset(rows2);
        var j :| 0 <= j < |rows2| && rows2[j] == rows1[i];
      }
      if k in AllKeys(rows2) {
        var i :| 0 <= i < |rows2| && k in rows2[i];
        assert rows2[i] in multiset(rows1);
        var j :| 0 <= j < |rows1| && rows1[j] == rows2[i];
      }
    }
    AscendingUnique(h1[3..], h2[3..]);
    assert h1 == h1[..3] + h1[3..] && h2 == h2[..3] + h2[3..];
  }

  /** Every key of every row is a column, so `DictWriter` never meets an
      unknown key; and no column appears twice. */
  lemma HeaderCoversRows(h: seq<string>, rows: seq<map<string, Json>>)
    requires IsHeader(h, rows)
    ensures forall i, k | 0 <= i < |rows| && k in rows[i] :: k in h
    ensures forall i, j :: 0 <= i < j < |h| ==> h[i] != h[j]
  {
    forall i, k | 0 <= i < |rows| && k in rows[i] ensures k in h {
      AllKeysMembership(rows, k);
      if k !in Fixed {
        assert k in h[3..];
      } else {
        assert k in h[..3];
      }
    }
    forall i, j | 0 <= i < j < |h| ensures h[i] != h[j] {
      if 3 <= i {
        assert h[i] == h[3..][i - 3] && h[j] == h[3..][j - 3];
        assert Less(h[i], h[j]);
        LessIrreflexive(h[i]);
      } else if 3 <= j {
        assert h[j] in h[3..];
        assert h[i] in Fixed by { assert h[i] == h[..3][i]; }
      } else {
        assert h[i] == Fixed[i] && h[j] == Fixed[j];
      }
    }
  }

  /** What `csv.DictWriter` writes for one value: `None` as an empty field,
      anything else as `str()` of it. */
  function CsvText(v: Json): string {
    if v.Null? then "" else PyStr(v)
  }

  /** The fields `DictWriter` writes for one row: the row's value in each
      column, the empty `restval` where the row lacks the key. */
  function Cells(h: seq<string>, row: map<string, Json>): (cells: seq<string>)
    ensures |cells| == |h|
  {
    seq(|h|, i requires 0 <= i < |h| => if h[i] in row then CsvText(row[h[i]]) else "")
  }

  /** Projecting a row onto the header keeps every one of its values, in that
      value's own column, and leaves the columns the row lacks empty. */
  lemma CellsKeepRow(h: seq<string>, rows: seq<map<string, Json>>, i: nat)
    requires IsHeader(h, rows) && i < |rows|
    ensures forall k :: k in rows[i] ==>
              exists c :: 0 <= c < |h| && h[c] == k && Cells(h, rows[i])[c] == CsvText(rows[i][k])
    ensures forall c :: 0 <= c < |h| && h[c] !in rows[i] ==> Cells(h, rows[i])[c] == ""
  {
    HeaderCoversRows(h, rows);
    forall k | k in rows[i]
      ensures exists c :: 0 <= c < |h| && h[c] == k && Cells(h, rows[i])[c] == CsvText(rows[i][k])
    {
      assert k in h;
      var c :| 0 <= c < |h| && h[c] == k;
      assert Cells(h, rows[i])[c] == CsvText(rows[i][k]);
    }
  }
}
