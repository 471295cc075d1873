/** The store loader of the top-level utils.py: the same framing and the
    same columns as the store loader of src/utils.py, but every numeric
    column goes through plain `int`, with no sentinel for empty fields. */
module PlainStore {
  import opened PyText
  import opened Framing
  import Loaders

  /** One line of the store file, columns read left to right with `int`. */
  function ParsePlainStoreFields(f: seq<string>): Result<Loaders.StoreRecord, Fault>
  {
    var f0 :- Index(f, 0);
    var store :- Int(f0);
    var f1 :- Index(f, 1);
    var f2 :- Index(f, 2);
    var f3 :- Index(f, 3);
    var competitionDistance :- Int(f3);
    var f4 :- Index(f, 4);
    var competitionOpenSinceMonth :- Int(f4);
    var f5 :- Index(f, 5);
    var competitionOpenSinceYear :- Int(f5);
    var f6 :- Index(f, 6);
    var promo2 :- Int(f6);
    var f7 :- Index(f, 7);
    var promo2SinceWeek :- Int(f7);
    var f8 :- Index(f, 8);
    var promo2SinceYear :- Int(f8);
    var f9 :- Index(f, 9);
    Ok(Loaders.StoreRecord(store, Interior(f1), Interior(f2), competitionDistance,
                           competitionOpenSinceMonth, competitionOpenSinceYear, promo2,
                           promo2SinceWeek, promo2SinceYear, Interior(f9)))
  }

  /** One line of the store file: split on commas, then read by position. */
  function ParsePlainStoreLine(line: string): Result<Loaders.StoreRecord, Fault>
  {
    ParsePlainStoreFields(Split(line, ','))
  }

  /** The fields of a store line are accepted exactly when there are at least ten and
      every numeric column is decimal text; an empty numeric column is an
      error here. The string columns are the raw fields without their first
      and last character. */
  lemma PlainStoreFieldsShape(f: seq<string>)
    ensures var r := ParsePlainStoreFields(f);
      r.Ok? <==> |f| >= 10 && forall c :: c in Loaders.StoreIntColumns ==> Int(f[c]).Ok?
    ensures var r := ParsePlainStoreFields(f);
      r.Ok? ==>
        Int(f[0]) == Ok(r.value.store) &&
        r.value.storeType == Interior(f[1]) &&
        r.value.assortment == Interior(f[2]) &&
        Int(f[3]) == Ok(r.value.competitionDistance) &&
        Int(f[4]) == Ok(r.value.competitionOpenSinceMonth) &&
        Int(f[5]) == Ok(r.value.competitionOpenSinceYear) &&
        Int(f[6]) == Ok(r.value.promo2) &&
        Int(f[7]) == Ok(r.value.promo2SinceWeek) &&
        Int(f[8]) == Ok(r.value.promo2SinceYear) &&
        r.value.promoInterval == Interior(f[9])
    ensures var r := ParsePlainStoreFields(f);
      r == Err(IndexError) ==> |f| < 10
    ensures var r := ParsePlainStoreFields(f);
      r == Err(ValueError) ==> exists c :: c in Loaders.StoreIntColumns && c < |f| && Int(f[c]).Err?
  {
  }

  /** `loadStoreInfo` after the file is read: one record per data line, in
      file order, or the exception of the first line that fails. */
  method LoadStoreInfo(content: string) returns (r: Result<seq<Loaders.StoreRecord>, LoadError>)
    ensures Loaded(DataLines(content), ParsePlainStoreLine, r)
    ensures Count(content, '\n') <= 1 ==> r == Ok([])
  {
    r := LoadLines(DataLines(content), ParsePlainStoreLine);
  }

  /** An empty numeric field, which the sentinel loader reads as -1, makes
      this loader raise ValueError. */
  lemma EmptyNumericFieldFails(line: string, c: nat)
    requires c in Loaders.StoreIntColumns
    requires c < |Split(line, ',')| && Split(line, ',')[c] == ""
    ensures ParsePlainStoreLine(line) == Err(ValueError)
    ensures Loaders.StoreInt(Split(line, ',')[c]) == Ok(-1)
  {
    PlainStoreFieldsShape(Split(line, ','));
    assert Int("").Err?;
  }

  /** Wherever this loader accepts a line, the sentinel loader of
      src/utils.py reads it identically: the two differ only on lines
      with an empty numeric column. */
  lemma AgreesWithSentinelLoader(line: string)
    requires ParsePlainStoreLine(line).Ok?
    ensures Loaders.ParseStoreLine(line) == ParsePlainStoreLine(line)
  {
    var f := Split(line, ',');
    PlainStoreFieldsShape(f);
    assert f[0] != "" && f[3] != "" && f[4] != "" && f[5] != "" && f[6] != "" && f[7] != "" && f[8] != "" by {
      assert Int(f[0]).Ok? && Int(f[3]).Ok? && Int(f[4]).Ok? && Int(f[5]).Ok?;
      assert Int(f[6]).Ok? && Int(f[7]).Ok? && Int(f[8]).Ok?;
    }
  }
}
