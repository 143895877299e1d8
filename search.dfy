/**
 * The `search*` helpers of the services: keep, in order, the records whose
 * string field, lower-cased, contains the lower-cased and trimmed query,
 * and throw when none is kept.
 */
module Search {
  import opened Json
  import opened Lists
  import opened Validation

  /** `typeof r[field] === 'string' && r[field].toLowerCase().includes(needle)`. */
  predicate Matches(record: JVal, field: string, needle: string) {
    Get(record, field).Str? && Contains(ToLower(Get(record, field).s), needle)
  }

  /** What the query becomes before the comparison: `query.toLowerCase().trim()`. */
  function Needle(query: string): string {
    Trim(ToLower(query))
  }

  /**
   * `records.filter(r => typeof r[field] === 'string' && r[field].toLowerCase().includes(query.toLowerCase().trim()))`,
   * throwing `noMatch` when nothing is kept. The query is only touched for a
   * record whose field is a string, so a query that is not a string throws a
   * `TypeError` exactly when such a record exists.
   */
  function SearchBy(records: seq<JVal>, field: string, query: JVal, noMatch: string): (r: Outcome<seq<JVal>>)
    ensures !query.Str? ==> r.Throw?
    ensures !query.Str? ==>
      r.message == if exists i :: 0 <= i < |records| && Get(records[i], field).Str? then TypeErrorText else noMatch
    ensures query.Str? ==> (r.Throw? <==> forall i :: 0 <= i < |records| ==> !Matches(records[i], field, Needle(query.s)))
    ensures query.Str? && r.Throw? ==> r.message == noMatch
    ensures r.Return? ==> r.value != [] && IsSubsequence(r.value, records)
    ensures r.Return? ==> forall i :: 0 <= i < |r.value| ==> Matches(r.value[i], field, Needle(query.s))
    ensures r.Return? ==> forall i :: 0 <= i < |records| && Matches(records[i], field, Needle(query.s)) ==> records[i] in r.value
    ensures r.Return? ==>
      forall x :: multiset(r.value)[x] == if Matches(x, field, Needle(query.s)) then multiset(records)[x] else 0
  {
    if !query.Str? then
      if exists i :: 0 <= i < |records| && Get(records[i], field).Str? then Throw(TypeErrorText) else Throw(noMatch)
    else
      var needle := Needle(query.s);
      var kept := Filter(records, (x: JVal) => Matches(x, field, needle));
      KeptByMatches(records, field, needle);
      if kept == [] then Throw(noMatch) else Return(kept)
  }

  /** What the filter of a search keeps: the matching records, in order and as often as they occur. */
  lemma KeptByMatches(records: seq<JVal>, field: string, needle: string)
    ensures var kept := Filter(records, (x: JVal) => Matches(x, field, needle));
      && (kept == [] <==> forall i :: 0 <= i < |records| ==> !Matches(records[i], field, needle))
      && IsSubsequence(kept, records)
      && forall x :: multiset(kept)[x] == if Matches(x, field, needle) then multiset(records)[x] else 0
  {
    var p := (x: JVal) => Matches(x, field, needle);
    FilterEmptyIffNone(records, p);
    FilterIsSubsequence(records, p);
    FilterMultiplicity(records, p);
  }

  /** The search does not see the case of the query: an upper-case query finds what its lower-case form finds. */
  lemma QueryCaseIgnored(records: seq<JVal>, field: string, query: string, noMatch: string)
    ensures SearchBy(records, field, Str(ToLower(query)), noMatch) == SearchBy(records, field, Str(query), noMatch)
  {
    ToLowerIdempotent(query);
  }

  /** Nor the case of the field: a record matches exactly when its lower-cased copy does. */
  lemma FieldCaseIgnored(name: string, field: string, needle: string)
    ensures Matches(Obj(map[field := Str(name)]), field, needle) <==> Matches(Obj(map[field := Str(ToLower(name))]), field, needle)
  {
    ToLowerIdempotent(name);
  }

  /** An empty (or all white space) query keeps every record whose field is a string. */
  lemma BlankQueryKeepsStrings(record: JVal, field: string, query: string)
    requires Trim(query) == ""
    requires Get(record, field).Str?
    ensures Matches(record, field, Needle(query))
  {
    TrimEmptyIffBlank(query);
    TrimEmptyIffBlank(ToLower(query));
    assert forall i :: 0 <= i < |query| ==> IsWhitespace(query[i]) ==> !('A' <= query[i] <= 'Z');
    ContainsEmpty(ToLower(Get(record, field).s));
  }
}
