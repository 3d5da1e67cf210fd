/** Loading user records from a JSON file: the shape check of the parsed
    document (a list of objects) and the per-item validation and normalisation
    into `UserRecord`s. */
module IoUtils {
  import opened Wrappers
  import opened PyText
  import opened PyJson

  /** A validated user: a trimmed, non-empty id, a trimmed, upper-cased,
      non-empty country code and a score in [0, 1]. */
  datatype UserRecord = UserRecord(userId: string, country: string, score: real)

  // ---------------------------------------------------------------------------
  // The shape of the document
  // ---------------------------------------------------------------------------

  /** The `ValueError`s of `read_json_records`. */
  datatype ShapeError =
    | InvalidDocument(message: string)
    | NotAList(typeName: string)
    | ItemNotAnObject(index: nat, typeName: string)

  /** `read_json_records` after the file is read: `parsed` is what `json.loads`
      makes of its text. The document must be a list whose items are all
      objects; the first item that is not names its index and its type. */
  method ReadJsonRecords(parsed: Parse) returns (r: Result<seq<Json>, ShapeError>)
    ensures parsed.Invalid? ==> r == Failure(InvalidDocument(parsed.message))
    ensures parsed.Valid? && !parsed.value.Arr? ==> r == Failure(NotAList(TypeName(parsed.value)))
    ensures r.Success? <==>
              parsed.Valid? && parsed.value.Arr? &&
              forall i :: 0 <= i < |parsed.value.items| ==> parsed.value.items[i].Obj?
    ensures r.Success? ==> r.value == parsed.value.items
    ensures r.Failure? && r.error.ItemNotAnObject? ==>
              parsed.Valid? && parsed.value.Arr? &&
              (var items := parsed.value.items;
               && r.error.index < |items|
               && !items[r.error.index].Obj?
               && r.error.typeName == TypeName(items[r.error.index])
               && forall j :: 0 <= j < r.error.index ==> items[j].Obj?)
  {
    if parsed.Invalid? {
      return Failure(InvalidDocument(parsed.message));
    }
    var raw := parsed.value;
    if !raw.Arr? {
      return Failure(NotAList(TypeName(raw)));
    }
    for idx := 0 to |raw.items|
      invariant forall j :: 0 <= j < idx ==> raw.items[j].Obj?
    {
      var item := raw.items[idx];
      if !item.Obj? {
        return Failure(ItemNotAnObject(idx, TypeName(item)));
      }
    }
    return Success(raw.items);
  }

  // ---------------------------------------------------------------------------
  // Validating the items
  // ---------------------------------------------------------------------------

  /** The `ValueError`s of `parse_user_records`, each naming the item's index. */
  datatype ItemError =
    | MissingKey(index: nat, key: string)
    | InvalidTypes(index: nat)
    | EmptyId(index: nat)
    | EmptyCountry(index: nat)
    | ScoreOutOfRange(index: nat)

  /** The index an item error names. */
  function IndexOf(e: ItemError): nat {
    match e
    case MissingKey(i, _) => i
    case InvalidTypes(i) => i
    case EmptyId(i) => i
    case EmptyCountry(i) => i
    case ScoreOutOfRange(i) => i
  }

  /** `float(v)` of a parsed value, with `toFloat` standing for Python's
      parsing of a number's or a string's text. `True` and `False` are 1.0
      and 0.0; `None`, lists and objects raise `TypeError`, modelled as
      `None`, and so does text `toFloat` rejects (Python's `ValueError`). */
  function FloatOf(v: Json, toFloat: string -> Option<real>): Option<real> {
    match v
    case Null => Option.None
    case Bool(b) => Some(if b then 1.0 else 0.0)
    case Num(t) => toFloat(t)
    case Str(s) => toFloat(s)
    case Arr(_) => Option.None
    case Obj(_) => Option.None
  }

  /** The body of `parse_user_records`' loop for item `idx`. Only an object can
      be indexed by a key (anything else raises `TypeError`). The keys are read
      in the order `id`, `country`, `score`, then the values are checked in the
      order: non-empty id, non-empty country, score within [0, 1]. */
  function ParseItem(idx: nat, item: Json, toFloat: string -> Option<real>): Result<UserRecord, ItemError> {
    if !item.Obj? then Failure(InvalidTypes(idx))
    else
      var id := Lookup(item.fields, "id");
      var country := Lookup(item.fields, "country");
      var score := Lookup(item.fields, "score");
      if id.None? then Failure(MissingKey(idx, "id"))
      else if country.None? then Failure(MissingKey(idx, "country"))
      else if score.None? then Failure(MissingKey(idx, "score"))
      else
        var userId := Strip(PyStr(id.value));
        var code := TrimUpper(PyStr(country.value));
        var x := FloatOf(score.value, toFloat);
        if x.None? then Failure(InvalidTypes(idx))
        else if userId == "" then Failure(EmptyId(idx))
        else if code == "" then Failure(EmptyCountry(idx))
        else if !(0.0 <= x.value <= 1.0) then Failure(ScoreOutOfRange(idx))
        else Success(UserRecord(userId, code, x.value))
  }

  /** A record as `parse_user_records` produces it. */
  predicate IsNormal(rec: UserRecord) {
    && rec.userId != "" && Strip(rec.userId) == rec.userId
    && rec.country != "" && TrimUpper(rec.country) == rec.country
    && 0.0 <= rec.score <= 1.0
  }


  /** Every record that an item gives is normal, with the item's trimmed id,
      its trimmed upper-cased country and the float of its score. */
  lemma ParsedRecordIsNormal(idx: nat, item: Json, toFloat: string -> Option<real>)
    requires ParseItem(idx, item, toFloat).Success?
    ensures IsNormal(ParseItem(idx, item, toFloat).value)
    ensures var rec := ParseItem(idx, item, toFloat).value;
            && rec.userId == Strip(PyStr(Lookup(item.fields, "id").value))
            && rec.country == TrimUpper(PyStr(Lookup(item.fields, "country").value))
            && Some(rec.score) == FloatOf(Lookup(item.fields, "score").value, toFloat)
  {
    var rec := ParseItem(idx, item, toFloat).value;
    StripIdempotent(PyStr(Lookup(item.fields, "id").value));
    TrimUpperIdempotent(PyStr(Lookup(item.fields, "country").value));
  }

  /** The item is an object holding all three keys, and its score converts
      to a float: every check before the value checks passes. */
  predicate ScoreConverts(item: Json, toFloat: string -> Option<real>) {
    && item.Obj?
    && Lookup(item.fields, "id").Some?
    && Lookup(item.fields, "country").Some?
    && Lookup(item.fields, "score").Some?
    && FloatOf(Lookup(item.fields, "score").value, toFloat).Some?
  }

  /** Which error an item raises, in the order of the checks: each error
      happens exactly when every earlier check passed and its own did not. */
  lemma ItemErrorOrder(idx: nat, item: Json, toFloat: string -> Option<real>)
    ensures ParseItem(idx, item, toFloat) == Failure(InvalidTypes(idx)) <==>
              !item.Obj? ||
              (&& Lookup(item.fields, "id").Some?
               && Lookup(item.fields, "country").Some?
               && Lookup(item.fields, "score").Some?
               && FloatOf(Lookup(item.fields, "score").value, toFloat).None?)
    ensures ParseItem(idx, item, toFloat) == Failure(MissingKey(idx, "id")) <==>
              item.Obj? && Lookup(item.fields, "id").None?
    ensures ParseItem(idx, item, toFloat) == Failure(MissingKey(idx, "country")) <==>
              item.Obj? && Lookup(item.fields, "id").Some? && Lookup(item.fields, "country").None?
    ensures ParseItem(idx, item, toFloat) == Failure(MissingKey(idx, "score")) <==>
              (&& item.Obj? && Lookup(item.fields, "id").Some? && Lookup(item.fields, "country").Some?
               && Lookup(item.fields, "score").None?)
    ensures ParseItem(idx, item, toFloat) == Failure(EmptyId(idx)) <==>
              (&& ScoreConverts(item, toFloat)
               && Strip(PyStr(Lookup(item.fields, "id").value)) == "")
    ensures ParseItem(idx, item, toFloat) == Failure(EmptyCountry(idx)) <==>
              (&& ScoreConverts(item, toFloat)
               && Strip(PyStr(Lookup(item.fields, "id").value)) != ""
               && TrimUpper(PyStr(Lookup(item.fields, "country").value)) == "")
    ensures ParseItem(idx, item, toFloat) == Failure(ScoreOutOfRange(idx)) <==>
              (&& ScoreConverts(item, toFloat)
               && Strip(PyStr(Lookup(item.fields, "id").value)) != ""
               && TrimUpper(PyStr(Lookup(item.fields, "country").value)) != ""
               && !(0.0 <= FloatOf(Lookup(item.fields, "score").value, toFloat).value <= 1.0))
    ensures ParseItem(idx, item, toFloat).Failure? ==> IndexOf(ParseItem(idx, item, toFloat).error) == idx
  {
  }

  /** The range check is inclusive at both ends: an object item whose three
      keys are present, whose score converts, and whose id and country pass
      is accepted exactly when its score lies in [0, 1], so the scores 0 and
      1 themselves are accepted. */
  lemma ScoreBounds(idx: nat, item: Json, toFloat: string -> Option<real>)
    requires ScoreConverts(item, toFloat)
    requires Strip(PyStr(Lookup(item.fields, "id").value)) != ""
    requires TrimUpper(PyStr(Lookup(item.fields, "country").value)) != ""
    ensures ParseItem(idx, item, toFloat).Success? <==>
              0.0 <= FloatOf(Lookup(item.fields, "score").value, toFloat).value <= 1.0
  {
  }

  /** A concrete item with the score 1: it is accepted, so the upper end of
      the range belongs to it. */
  lemma ScoreOneAccepted(toFloat: string -> Option<real>)
    requires toFloat("1") == Some(1.0)
    ensures ParseItem(0, Obj([("id", Str("u1")), ("country", Str("se")), ("score", Num("1"))]), toFloat)
            == Success(UserRecord("u1", "SE", 1.0))
  {
    var fields := [("id", Str("u1")), ("country", Str("se")), ("score", Num("1"))];
    assert Lookup(fields, "score") == Some(Num("1"));
    assert Lookup(fields, "country") == Some(Str("se")) by {
      assert fields[..2][1] == ("country", Str("se"));
    }
    assert Lookup(fields, "id") == Some(Str("u1")) by {
      assert fields[..2] == [("id", Str("u1")), ("country", Str("se"))];
      assert fields[..2][..1] == [("id", Str("u1"))];
      assert Lookup(fields[..2][..1], "id") == Some(Str("u1"));
    }
    assert Strip("u1") == "u1" by { StripOfTrimmed("u1"); }
    assert Strip("se") == "se" by { StripOfTrimmed("se"); }
    assert Upper("se") == "SE";
  }

  /** `parse_user_records`: one record per item, in order, or the error of the
      first item that fails. */
  method ParseUserRecords(items: seq<Json>, toFloat: string -> Option<real>)
    returns (r: Result<seq<UserRecord>, ItemError>)
    ensures r.Success? <==> forall i :: 0 <= i < |items| ==> ParseItem(i, items[i], toFloat).Success?
    ensures r.Success? ==>
              |r.value| == |items| &&
              forall i :: 0 <= i < |items| ==> ParseItem(i, items[i], toFloat) == Success(r.value[i])
    ensures r.Failure? ==>
              && IndexOf(r.error) < |items|
              && ParseItem(IndexOf(r.error), items[IndexOf(r.error)], toFloat) == Failure(r.error)
              && forall j :: 0 <= j < IndexOf(r.error) ==> ParseItem(j, items[j], toFloat).Success?
  {
    var records: seq<UserRecord> := [];
    for idx := 0 to |items|
      invariant |records| == idx
      invariant forall j :: 0 <= j < idx ==> ParseItem(j, items[j], toFloat) == Success(records[j])
    {
      var item := items[idx];
      if !item.Obj? {
        return Failure(InvalidTypes(idx));
      }
      var id := Lookup(item.fields, "id");
      if id.None? {
        return Failure(MissingKey(idx, "id"));
      }
      var userId := Strip(PyStr(id.value));
      var country := Lookup(item.fields, "country");
      if country.None? {
        return Failure(MissingKey(idx, "country"));
      }
      var code := TrimUpper(PyStr(country.value));
      var score := Lookup(item.fields, "score");
      if score.None? {
        return Failure(MissingKey(idx, "score"));
      }
      var x := FloatOf(score.value, toFloat);
      if x.None? {
        return Failure(InvalidTypes(idx));
      }
      if userId == "" {
        return Failure(EmptyId(idx));
      }
      if code == "" {
        return Failure(EmptyCountry(idx));
      }
      if !(0.0 <= x.value <= 1.0) {
        return Failure(ScoreOutOfRange(idx));
      }
      records := records + [UserRecord(userId, code, x.value)];
    }
    return Success(records);
  }
}
