/**
 * The lookup the models' `update*` functions share: try the argument as a
 * document key, and when no document has that key, scan the collection for
 * the first document whose stored `id` field loosely equals the argument
 * (`data?.id == id || data?.id == Number(id)`).
 */
module Lookup {
  import opened Json
  import opened Lists
  import opened Store

  /**
   * `stored == id || stored == Number(id)` with JavaScript's loose equality,
   * for a stored `id` field and a string argument. A string compares as text or,
   * against `Number(id)`, as a number; a number or a boolean compares as a
   * number; null and undefined equal neither. An array or an object is first
   * turned into its text (`String(stored)`), which compares with `id` as text
   * and, through `Number(...)`, with `Number(id)`. A reference is taken as
   * equal to nothing.
   */
  predicate LooseIdEquals(stored: JVal, id: string) {
    match stored
    case Str(s) =>
      s == id || (StringToNumber(s).Some? && StringToNumber(s) == StringToNumber(id))
    case Num(n) => StringToNumber(id) == Some(n)
    case Bool(b) => StringToNumber(id) == Some(if b then 1.0 else 0.0)
    case Arr(_) => Text(stored) == Some(id) || (ToNumber(stored).Some? && ToNumber(stored) == StringToNumber(id))
    case Obj(_) => Text(stored) == Some(id)
    case _ => false
  }

  /** The stored `id` field of a document matches the argument. */
  predicate IdFieldMatches(d: Doc, id: string) {
    LooseIdEquals(Get(Obj(d.data), "id"), id)
  }

  /** Where an update lands: nowhere because a store call failed, nowhere because nothing matched, or at a key. */
  datatype Located = LookupFailed | NoMatch | At(key: string)

  /** The first document whose stored `id` field matches, as `allSnapshot.docs.find(...)` picks it. */
  function LooseIndex(docs: seq<Doc>, id: string): Option<nat> {
    FirstWhere(docs, (d: Doc) => IdFieldMatches(d, id))
  }

  /**
   * The document the lenient lookup settles on, in a store in state
   * (`docs`, `available`). An id `doc()` refuses makes it throw; the scan
   * compares the stored `id` fields with the id as it was given.
   */
  function Locate(docs: seq<Doc>, available: bool, id: string): (r: Located)
    requires DistinctKeys(docs)
    ensures r.LookupFailed? <==> !available || !Addressable(id)
    ensures r.At? ==> HasKey(docs, r.key)
    ensures available && Names(docs, id) ==> r == At(PathOf(id))
    ensures r.At? && !Names(docs, id) ==>
      IdFieldMatches(docs[KeyIndex(docs, r.key).value], id)
      && forall j :: 0 <= j < KeyIndex(docs, r.key).value ==> !IdFieldMatches(docs[j], id)
    ensures r.NoMatch? ==>
      !Names(docs, id) && forall j :: 0 <= j < |docs| ==> !IdFieldMatches(docs[j], id)
  {
    if !available || !Addressable(id) then LookupFailed
    else if HasKey(docs, PathOf(id)) then At(PathOf(id))
    else match LooseIndex(docs, id)
      case None => NoMatch
      case Some(i) =>
        assert KeyIndex(docs, docs[i].key).value == i;
        At(docs[i].key)
  }

  /**
   * The lookup as the models run it: `getDoc` on the key; on a missing
   * document `getDocs` and `find`; then `getDoc` again on the key found.
   */
  method LenientLookup(c: Collection, id: string) returns (loc: Located)
    requires c.Valid()
    ensures loc == Locate(c.docs, c.available, id)
  {
    if !Addressable(id) {
      return LookupFailed;
    }
    var snapshot := c.GetDoc(PathOf(id));
    if snapshot.Failed? {
      return LookupFailed;
    }
    if snapshot.Found? {
      return At(PathOf(id));
    }
    var all := c.GetDocs();
    if all.None? {
      return LookupFailed;
    }
    var found := FirstWhere(all.value, (d: Doc) => IdFieldMatches(d, id));
    if found.None? {
      return NoMatch;
    }
    var key := all.value[found.value].key;
    snapshot := c.GetDoc(key);
    if snapshot.Failed? {
      return LookupFailed;
    }
    loc := At(key);
  }

  /** A string id matches itself, however the key was missed. */
  lemma SameStringMatches(id: string)
    ensures LooseIdEquals(Str(id), id)
  {
  }

  /** The stored number 7 matches the argument "7": the comparison goes through `Number(id)`. */
  lemma NumberMatchesNumeral()
    ensures LooseIdEquals(Num(7.0), "7")
  {
    assert Trim("7") == "7";
    assert DotIndex("7") == None;
    assert DigitsValue("7") == 7;
  }

  /** Null and undefined stored ids never match. */
  lemma NullishNeverMatches(id: string)
    ensures !LooseIdEquals(Null, id) && !LooseIdEquals(Undef, id)
  {
  }

  /** A stored one-element array matches the argument its element matches: `["7"] == "7"`. */
  lemma WrappedIdMatches()
    ensures LooseIdEquals(Arr([Str("7")]), "7")
  {
    assert JoinedText(Arr([Str("7")]), 1) == Some("");
  }

  /** The same holds for a wrapped number: `[7] == "7"`. */
  lemma WrappedNumberIdMatches()
    ensures LooseIdEquals(Arr([Num(7.0)]), "7")
  {
    assert NatText(7) == "7";
    assert JoinedText(Arr([Num(7.0)]), 1) == Some("");
  }

  /** A stored array matches the text of its elements joined with ',', which is no number. */
  lemma JoinedIdMatches()
    ensures LooseIdEquals(Arr([Str("a"), Null, Num(2.0)]), "a,,2")
  {
    var v := Arr([Str("a"), Null, Num(2.0)]);
    assert NatText(2) == "2";
    assert Text(Num(2.0)) == Some("2");
    assert JoinedText(v, 3) == Some("");
    assert v.items[2] == Num(2.0);
    assert Text(v.items[2]) == Some("2");
    assert "2" + "" + "" == "2";
    assert JoinedText(v, 2) == Some("2");
    assert v.items[1] == Null;
    assert "" + "," + "2" == ",2";
    assert JoinedText(v, 1) == Some(",2");
    assert v.items[0] == Str("a") && Text(v.items[0]) == Some("a");
    assert "a" + "," + ",2" == "a,,2";
    assert Text(v) == JoinedText(v, 0) == Some("a,,2");
  }

  /** A stored object matches only the argument "[object Object]". */
  lemma ObjectIdMatchesItsText(fields: map<string, JVal>, id: string)
    ensures LooseIdEquals(Obj(fields), id) <==> id == "[object Object]"
  {
  }
}
