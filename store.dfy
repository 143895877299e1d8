/**
 * One Firestore collection, as far as the models use it: an ordered list of
 * documents, each a key and a map of fields, and the five calls `getDoc`,
 * `getDocs`, `addDoc`, `updateDoc` and `deleteDoc`. A collection whose
 * `available` flag is false stands for a store whose every call fails.
 */
module Store {
  import opened Json
  import opened Lists

  datatype Doc = Doc(key: string, data: map<string, JVal>)

  /** What `getDoc` resolves to: a failure, a snapshot of a missing document, or the stored fields. */
  datatype Snapshot = Failed | Missing | Found(data: map<string, JVal>)

  /** The form of a stored document key: a single path piece, not empty and without '/'.
      `doc(collection, id)` accepts more ids than these; `DocPath` is what it makes of one. */
  predicate ValidKey(key: string) {
    key != "" && '/' !in key
  }

  /** `s.split('/').filter(p => p.length > 0)`: the non-empty pieces of `s` between slashes. */
  function Segments(s: string): (r: seq<string>)
    ensures forall i :: 0 <= i < |r| ==> ValidKey(r[i])
    decreases |s|
  {
    match FirstWhere(s, (c: char) => c == '/')
    case None => if s == "" then [] else [s]
    case Some(i) => (if i == 0 then [] else [s[..i]]) + Segments(s[i + 1..])
  }

  /** `segments.join('/')`. */
  function JoinPath(segments: seq<string>): string {
    if segments == [] then ""
    else if |segments| == 1 then segments[0]
    else segments[0] + "/" + JoinPath(segments[1..])
  }

  /**
   * The path `doc(collection, id)` names below the collection, as Firestore
   * builds it: `id` is cut at every '/', the empty pieces are dropped and the
   * rest joined again. None when `doc()` throws: `id` holds "//", or the
   * whole path would have an even number of pieces and name a collection
   * ("", "/" and "a/b" do). One piece is a document of the collection itself;
   * three or more a document of a sub-collection below one of its documents.
   */
  function DocPath(id: string): (r: Option<string>)
    ensures ValidKey(id) ==> r == Some(id)
    ensures r.Some? ==> r.value != ""
  {
    KeyIsOwnPath(id);
    var segments := Segments(id);
    if Contains(id, "//") || |segments| % 2 == 0 then None else Some(JoinPath(segments))
  }

  lemma KeyIsOwnPath(id: string)
    ensures ValidKey(id) ==> Segments(id) == [id] && !Contains(id, "//")
  {
    if ValidKey(id) {
      assert FirstWhere(id, (c: char) => c == '/') == None;
      forall i | 0 <= i <= |id| - 2 ensures !OccursAt(id, "//", i) {
        assert id[i..i + 2][0] == id[i];
      }
    }
  }

  /** The first slash of `a + "/" + b`, for a piece `a` without one, is the one after `a`. */
  lemma FirstSlashAfter(a: string, b: string)
    requires ValidKey(a)
    ensures FirstWhere(a + "/" + b, (c: char) => c == '/') == Some(|a|)
  {
    var s := a + "/" + b;
    var r := FirstWhere(s, (c: char) => c == '/');
    assert s[|a|] == '/';
    assert forall j :: 0 <= j < |a| ==> s[j] == a[j];
    assert r.Some?;
    assert r.value == |a|;
  }

  /** No two slashes in a row. */
  ghost predicate SingleSlashes(s: string) {
    forall j :: 0 <= j < |s| - 1 ==> !(s[j] == '/' && s[j + 1] == '/')
  }

  lemma SingleSlashesNoDouble(s: string)
    requires SingleSlashes(s)
    ensures !Contains(s, "//")
  {
    forall i | 0 <= i <= |s| - 2 ensures !OccursAt(s, "//", i) {
      assert s[i..i + 2][0] == s[i] && s[i..i + 2][1] == s[i + 1];
    }
  }

  /** Joining pieces and cutting the result again gives the pieces back, and the join holds no "//". */
  lemma {:induction false} SegmentsOfJoin(segments: seq<string>)
    requires forall i :: 0 <= i < |segments| ==> ValidKey(segments[i])
    ensures Segments(JoinPath(segments)) == segments
    ensures SingleSlashes(JoinPath(segments))
    ensures segments != [] ==> JoinPath(segments) != "" && JoinPath(segments)[0] != '/'
    ensures segments != [] ==> JoinPath(segments)[|JoinPath(segments)| - 1] != '/'
    decreases |segments|
  {
    if |segments| == 1 {
      KeyIsOwnPath(segments[0]);
    } else if |segments| > 1 {
      var a, b := segments[0], JoinPath(segments[1..]);
      SegmentsOfJoin(segments[1..]);
      var s := a + "/" + b;
      assert JoinPath(segments) == s;
      FirstSlashAfter(a, b);
      assert s[..|a|] == a;
      assert s[|a| + 1..] == b;
      forall j | 0 <= j < |s| - 1 ensures !(s[j] == '/' && s[j + 1] == '/') {
        if j < |a| {
          assert s[j] == a[j];
        } else if j == |a| {
          assert s[j + 1] == b[0];
        } else {
          assert s[j] == b[j - |a| - 1] && s[j + 1] == b[j - |a|];
        }
      }
    }
  }

  /** Normalising a path twice is normalising it once. */
  lemma DocPathIdempotent(id: string)
    requires Addressable(id)
    ensures DocPath(PathOf(id)) == DocPath(id)
  {
    SegmentsOfJoin(Segments(id));
    SingleSlashesNoDouble(PathOf(id));
  }

  /** The path names a document of the collection itself exactly when `id` has one piece. */
  lemma OnePieceIsKey(id: string)
    requires Addressable(id)
    ensures ValidKey(PathOf(id)) <==> |Segments(id)| == 1
  {
    var segments := Segments(id);
    if |segments| > 1 {
      assert PathOf(id)[|segments[0]|] == '/';
    }
  }

  /**
   * The backend writes no sub-collection: every stored key is one piece, so
   * a path of several pieces names no stored document.
   */
  lemma NestedPathNamesNothing(docs: seq<Doc>, id: string)
    requires forall i :: 0 <= i < |docs| ==> ValidKey(docs[i].key)
    requires Addressable(id) && |Segments(id)| > 1
    ensures !Names(docs, id)
  {
    OnePieceIsKey(id);
  }

  /** `doc()` drops a slash at either end of the id. */
  lemma DocPathTrimsSlashes()
    ensures DocPath("/abc") == Some("abc") && DocPath("abc/") == Some("abc")
  {
    assert "/abc" == "" + "/" + "abc" && "abc/" == "abc" + "/" + "";
    SlashPieces("", "abc");
    SlashPieces("abc", "");
    SingleSlashesNoDouble("/abc");
    SingleSlashesNoDouble("abc/");
  }

  /** A path joined from an odd number of pieces is its own document path. */
  lemma DocPathOfJoin(segments: seq<string>)
    requires forall i :: 0 <= i < |segments| ==> ValidKey(segments[i])
    requires |segments| % 2 == 1
    ensures DocPath(JoinPath(segments)) == Some(JoinPath(segments))
  {
    SegmentsOfJoin(segments);
    SingleSlashesNoDouble(JoinPath(segments));
  }

  /** An id of three pieces names a document of a sub-collection. */
  lemma DocPathNested()
    ensures DocPath("a/b/c") == Some("a/b/c")
  {
    var pieces := ["a", "b", "c"];
    assert ValidKey(pieces[0]) && ValidKey(pieces[1]) && ValidKey(pieces[2]);
    DocPathOfJoin(pieces);
    assert JoinPath(pieces[2..]) == "c";
    assert JoinPath(pieces[1..]) == "b/c";
    assert JoinPath(pieces) == "a/b/c";
  }

  /** `doc()` throws for an id of no piece or two pieces, and for one holding "//". */
  lemma DocPathRefused()
    ensures DocPath("") == None && DocPath("/") == None
    ensures DocPath("a/b") == None && DocPath("a//b/c") == None
  {
    assert "/" == "" + "/" + "" && "a/b" == "a" + "/" + "b";
    SlashPieces("", "");
    SlashPieces("a", "b");
    assert OccursAt("a//b/c", "//", 1);
  }

  /** Cutting at the first slash. */
  lemma SlashPieces(a: string, b: string)
    requires '/' !in a
    ensures Segments(a + "/" + b) == (if a == "" then [] else [a]) + Segments(b)
  {
    var s := a + "/" + b;
    if a == "" {
      assert s[0] == '/';
      assert FirstWhere(s, (c: char) => c == '/') == Some(0);
    } else {
      FirstSlashAfter(a, b);
    }
    assert s[..|a|] == a;
    assert s[|a| + 1..] == b;
  }


  /** `doc(collection, id)` does not throw. */
  predicate Addressable(id: string) {
    DocPath(id).Some?
  }

  /** The path of the document `doc(collection, id)` names. */
  function PathOf(id: string): string
    requires Addressable(id)
  {
    DocPath(id).value
  }

  /** `doc(collection, id)` names a document stored in `docs`. */
  predicate Names(docs: seq<Doc>, id: string) {
    Addressable(id) && HasKey(docs, PathOf(id))
  }

  ghost predicate DistinctKeys(docs: seq<Doc>) {
    forall i, j :: 0 <= i < j < |docs| ==> docs[i].key != docs[j].key
  }

  predicate HasKey(docs: seq<Doc>, key: string) {
    exists i :: 0 <= i < |docs| && docs[i].key == key
  }

  /** The position of the document stored under `key`. */
  function KeyIndex(docs: seq<Doc>, key: string): (r: Option<nat>)
    ensures r.Some? <==> HasKey(docs, key)
    ensures r.Some? ==> r.value < |docs| && docs[r.value].key == key
  {
    FirstWhere(docs, (d: Doc) => d.key == key)
  }

  /** The fields stored under `key`. */
  function DataAt(docs: seq<Doc>, key: string): map<string, JVal>
    requires HasKey(docs, key)
  {
    docs[KeyIndex(docs, key).value].data
  }

  /** What a successful `getDoc` on `key` sees. */
  function Lookup(docs: seq<Doc>, key: string): (s: Snapshot)
    ensures s.Found? <==> HasKey(docs, key)
    ensures s.Found? ==> s.data == DataAt(docs, key)
    ensures !s.Failed?
  {
    match KeyIndex(docs, key)
    case None => Missing
    case Some(i) => Found(docs[i].data)
  }

  /** The documents after `updateDoc(key, patch)`: the patch's fields overwrite the stored ones. */
  function Merged(docs: seq<Doc>, key: string, patch: map<string, JVal>): (r: seq<Doc>)
    ensures |r| == |docs|
    ensures forall i :: 0 <= i < |docs| ==> r[i].key == docs[i].key
    ensures forall i :: 0 <= i < |docs| && docs[i].key == key ==> r[i].data == docs[i].data + patch
    ensures forall i :: 0 <= i < |docs| && docs[i].key != key ==> r[i] == docs[i]
  {
    seq(|docs|, i requires 0 <= i < |docs| =>
      if docs[i].key == key then Doc(key, docs[i].data + patch) else docs[i])
  }

  /** The documents after `deleteDoc(key)`. */
  function Removed(docs: seq<Doc>, key: string): (r: seq<Doc>)
    ensures forall i :: 0 <= i < |r| ==> r[i] in docs && r[i].key != key
    ensures forall i :: 0 <= i < |docs| && docs[i].key != key ==> docs[i] in r
  {
    Filter(docs, (d: Doc) => d.key != key)
  }

  lemma MergedKeepsKeys(docs: seq<Doc>, key: string, patch: map<string, JVal>)
    requires DistinctKeys(docs)
    ensures DistinctKeys(Merged(docs, key, patch))
    ensures forall k :: HasKey(Merged(docs, key, patch), k) <==> HasKey(docs, k)
  {
    var r := Merged(docs, key, patch);
    forall k | HasKey(r, k) ensures HasKey(docs, k) {
      var i :| 0 <= i < |r| && r[i].key == k;
      assert docs[i].key == k;
    }
    forall k | HasKey(docs, k) ensures HasKey(r, k) {
      var i :| 0 <= i < |docs| && docs[i].key == k;
      assert r[i].key == k;
    }
  }

  /** Reading back right after an update gives the old fields overwritten by the patch. */
  lemma MergedLookup(docs: seq<Doc>, key: string, patch: map<string, JVal>)
    requires DistinctKeys(docs) && HasKey(docs, key)
    ensures Lookup(Merged(docs, key, patch), key) == Found(DataAt(docs, key) + patch)
  {
    var r := Merged(docs, key, patch);
    var i := KeyIndex(docs, key).value;
    assert r[i].key == key;
    var j := KeyIndex(r, key).value;
    assert docs[j].key == key;
  }

  lemma {:induction false} FilterDistinct(docs: seq<Doc>, p: Doc -> bool)
    requires DistinctKeys(docs)
    ensures DistinctKeys(Filter(docs, p))
  {
    if docs != [] {
      FilterDistinct(docs[1..], p);
      var rest := Filter(docs[1..], p);
      assert forall i :: 0 <= i < |rest| ==> rest[i] in docs[1..];
      assert forall d :: d in docs[1..] ==> d.key != docs[0].key;
    }
  }

  /** After a delete the key is gone and every other document is still there. */
  lemma RemovedKeys(docs: seq<Doc>, key: string)
    requires DistinctKeys(docs)
    ensures DistinctKeys(Removed(docs, key))
    ensures !HasKey(Removed(docs, key), key)
    ensures forall k :: k != key ==> (HasKey(Removed(docs, key), k) <==> HasKey(docs, k))
  {
    var r := Removed(docs, key);
    FilterDistinct(docs, (d: Doc) => d.key != key);
    forall k | k != key && HasKey(docs, k) ensures HasKey(r, k) {
      var i :| 0 <= i < |docs| && docs[i].key == k;
      assert docs[i] in r;
      var j :| 0 <= j < |r| && r[j] == docs[i];
    }
    forall k | HasKey(r, k) ensures HasKey(docs, k) {
      var j :| 0 <= j < |r| && r[j].key == k;
      assert r[j] in docs;
      var i :| 0 <= i < |docs| && docs[i] == r[j];
    }
  }

  lemma {:induction false} FilterSorted(docs: seq<Doc>, p: Doc -> bool)
    requires Sorted(docs)
    ensures Sorted(Filter(docs, p))
  {
    if docs != [] {
      FilterSorted(docs[1..], p);
      var rest := Filter(docs[1..], p);
      assert forall i :: 0 <= i < |rest| ==> rest[i] in docs[1..];
      assert forall d :: d in docs[1..] ==> Below(docs[0].key, d.key);
    }
  }

  /**
   * Document-ID order, the order `getDocs` lists a collection in when the
   * query has no `orderBy`: character by character, a proper prefix first.
   * On Unicode scalar values this is the order of their UTF-8 bytes, by
   * which Firestore sorts strings.
   */
  predicate Below(a: string, b: string)
    decreases |a|
  {
    if a == [] then b != []
    else if b == [] then false
    else if a[0] != b[0] then a[0] < b[0]
    else Below(a[1..], b[1..])
  }

  lemma {:induction false} BelowIrreflexive(a: string)
    ensures !Below(a, a)
    decreases |a|
  {
    if a != [] {
      BelowIrreflexive(a[1..]);
    }
  }

  lemma {:induction false} BelowTransitive(a: string, b: string, c: string)
    requires Below(a, b) && Below(b, c)
    ensures Below(a, c)
    decreases |a|
  {
    if a != [] {
      assert b != [] && c != [];
      if a[0] == b[0] && b[0] == c[0] {
        BelowTransitive(a[1..], b[1..], c[1..]);
      }
    }
  }

  /** Of two different keys one sorts below the other. */
  lemma {:induction false} BelowTotal(a: string, b: string)
    requires a != b
    ensures Below(a, b) || Below(b, a)
    decreases |a|
  {
    if a != [] && b != [] && a[0] == b[0] {
      assert a == [a[0]] + a[1..] && b == [b[0]] + b[1..];
      BelowTotal(a[1..], b[1..]);
    }
  }

  /** The documents are held in ascending document-ID order. */
  ghost predicate Sorted(docs: seq<Doc>) {
    forall i, j :: 0 <= i < j < |docs| ==> Below(docs[i].key, docs[j].key)
  }

  /** Documents in ascending order have distinct keys. */
  lemma SortedDistinct(docs: seq<Doc>)
    requires Sorted(docs)
    ensures DistinctKeys(docs)
  {
    forall i, j | 0 <= i < j < |docs| ensures docs[i].key != docs[j].key {
      BelowIrreflexive(docs[i].key);
    }
  }

  /** How many documents sort below `key`: the position a document under `key` takes. */
  function Slot(docs: seq<Doc>, key: string): (p: nat)
    ensures p <= |docs|
    ensures forall j :: 0 <= j < p ==> Below(docs[j].key, key)
    ensures p < |docs| ==> !Below(docs[p].key, key)
  {
    match FirstWhere(docs, (d: Doc) => !Below(d.key, key))
    case None => |docs|
    case Some(i) => i
  }

  /** The documents with `d` put in its place in document-ID order. */
  function Inserted(docs: seq<Doc>, d: Doc): (r: seq<Doc>)
    ensures |r| == |docs| + 1 && r[Slot(docs, d.key)] == d
    ensures forall j :: 0 <= j < Slot(docs, d.key) ==> r[j] == docs[j]
    ensures forall j :: Slot(docs, d.key) < j < |r| ==> r[j] == docs[j - 1]
  {
    docs[..Slot(docs, d.key)] + [d] + docs[Slot(docs, d.key)..]
  }

  /** A document under a key not in use, put in its place, keeps the order. */
  lemma InsertedSorted(docs: seq<Doc>, d: Doc)
    requires Sorted(docs) && !HasKey(docs, d.key)
    ensures Sorted(Inserted(docs, d))
  {
    var p, r := Slot(docs, d.key), Inserted(docs, d);
    forall j | p <= j < |docs| ensures Below(d.key, docs[j].key) {
      assert docs[p].key != d.key;
      BelowTotal(docs[p].key, d.key);
      if j > p {
        BelowTransitive(d.key, docs[p].key, docs[j].key);
      }
    }
    forall i, j | 0 <= i < j < |r| ensures Below(r[i].key, r[j].key) {
      if j < p {
        assert r[i] == docs[i] && r[j] == docs[j];
      } else if j == p {
        assert r[i] == docs[i];
      } else if i < p {
        assert r[i] == docs[i] && r[j] == docs[j - 1];
      } else if i == p {
        assert r[j] == docs[j - 1];
      } else {
        assert r[i] == docs[i - 1] && r[j] == docs[j - 1];
      }
    }
  }

  /** The key of the first document of `after` that `before` does not hold: the key of the document added. */
  function NewKey(before: seq<Doc>, after: seq<Doc>): string {
    match FirstWhere(after, (d: Doc) => !HasKey(before, d.key))
    case None => ""
    case Some(i) => after[i].key
  }

  /** The document put in its place is the one `NewKey` finds. */
  lemma NewKeyOfInserted(docs: seq<Doc>, d: Doc)
    requires !HasKey(docs, d.key)
    ensures NewKey(docs, Inserted(docs, d)) == d.key
  {
    var p, r := Slot(docs, d.key), Inserted(docs, d);
    forall j | 0 <= j < p ensures HasKey(docs, r[j].key) {
      assert r[j] == docs[j];
    }
    var f := FirstWhere(r, (x: Doc) => !HasKey(docs, x.key));
    assert !HasKey(docs, r[p].key);
    assert f.Some?;
    assert f.value == p;
  }

  /** A line terminator, which `.` in a regular expression does not match. */
  predicate IsLineTerminator(c: char) {
    c == '\n' || c == '\r' || c == '\U{2028}' || c == '\U{2029}'
  }

  /** A field name Firestore reserves, one matching `/^__.*__$/`. */
  predicate ReservedName(name: string) {
    |name| >= 4 && name[..2] == "__" && name[|name| - 2..] == "__"
    && forall i :: 2 <= i < |name| - 2 ==> !IsLineTerminator(name[i])
  }

  /** A name Firestore writes a field under: not empty and not reserved. */
  predicate FieldName(name: string) {
    name != "" && !ReservedName(name)
  }

  /**
   * A value Firestore's write path accepts: not `undefined`, no field name
   * it refuses at any depth, and no array as an element of an array.
   * `inArray` says whether the value is itself an array element.
   */
  predicate Storable(v: JVal, inArray: bool) {
    match v
    case Undef => false
    case Arr(items) => !inArray && forall i :: 0 <= i < |items| ==> Storable(items[i], true)
    case Obj(fields) => forall k :: k in fields ==> FieldName(k) && Storable(fields[k], false)
    case _ => true
  }

  /** The fields `addDoc` writes; for any others it throws before writing. */
  predicate Writable(fields: map<string, JVal>) {
    Storable(Obj(fields), false)
  }

  /** `key.split('.')`. */
  function DotPieces(key: string): (r: seq<string>)
    ensures r != []
    decreases |key|
  {
    match FirstWhere(key, (c: char) => c == '.')
    case None => [key]
    case Some(i) => [key[..i]] + DotPieces(key[i + 1..])
  }

  /** A key `updateDoc` reads as a field path: none of `~ * / [ ]`, and every piece between dots a field name. */
  predicate FieldPath(key: string) {
    (forall i :: 0 <= i < |key| ==> key[i] !in "~*/[]") && forall p :: p in DotPieces(key) ==> FieldName(p)
  }

  /** The patches `updateDoc` writes; for any others it throws before writing. */
  predicate Updatable(patch: map<string, JVal>) {
    forall k :: k in patch ==> FieldPath(k) && Storable(patch[k], false)
  }

  /** A key without a dot is one piece. */
  lemma NoDotOnePiece(key: string)
    requires '.' !in key
    ensures DotPieces(key) == [key]
  {
    assert FirstWhere(key, (c: char) => c == '.') == None;
  }

  /** For a patch whose keys hold no dot and none of `~ * / [ ]`, `updateDoc` accepts what `addDoc` accepts. */
  lemma PlainPatchUpdatable(patch: map<string, JVal>)
    requires forall k, i :: k in patch && 0 <= i < |k| ==> k[i] !in ".~*/[]"
    ensures Updatable(patch) <==> Writable(patch)
  {
    forall k | k in patch ensures FieldPath(k) <==> FieldName(k) {
      assert '.' !in k by {
        forall i | 0 <= i < |k| ensures k[i] != '.' {
          assert k[i] !in ".~*/[]";
        }
      }
      NoDotOnePiece(k);
    }
  }

  /** Cutting at the first dot. */
  lemma DotSplit(a: string, b: string)
    requires '.' !in a
    ensures DotPieces(a + "." + b) == [a] + DotPieces(b)
  {
    var s := a + "." + b;
    assert s[|a|] == '.';
    assert forall j :: 0 <= j < |a| ==> s[j] == a[j];
    assert FirstWhere(s, (c: char) => c == '.') == Some(|a|);
    assert s[..|a|] == a && s[|a| + 1..] == b;
  }

  /** What `addDoc` refuses: an empty field name, `undefined`, and an array inside an array. */
  lemma WriteRefusals()
    ensures !Writable(map["" := Null]) && !Writable(map["a" := Undef])
    ensures !Writable(map["tags" := Arr([Arr([Num(1.0)])])])
    ensures Writable(map["tags" := Arr([Obj(map["a" := Arr([])])]), "a.b" := Num(1.0)])
  {
    assert "" in map["" := Null];
    assert "a" in map["a" := Undef] && !Storable(Undef, false);
    var inner := Arr([Num(1.0)]);
    assert !Storable(Arr([inner]), false) by {
      assert Arr([inner]).items[0] == inner && !Storable(inner, true);
    }
    assert "tags" in map["tags" := Arr([inner])];
    var e := Obj(map["a" := Arr([])]);
    assert Storable(e, true);
    assert Storable(Arr([e]), false);
    assert !ReservedName("a.b") && !ReservedName("tags");
  }

  /** A name between double underscores is refused by both calls. */
  lemma ReservedRefusals()
    ensures ReservedName("__x__")
    ensures !Writable(map["__x__" := Null]) && !FieldPath("__x__")
  {
    assert "__x__"[..2] == "__" && "__x__"[3..] == "__";
    assert "__x__" in map["__x__" := Null];
    NoDotOnePiece("__x__");
    assert "__x__" in DotPieces("__x__");
  }

  /** `updateDoc` refuses as a field path "", "a..b", with its empty piece, and "a/b". */
  lemma PathRefusals()
    ensures !FieldPath("") && !FieldPath("a..b") && !FieldPath("a/b")
  {
    assert !FieldPath("") by {
      NoDotOnePiece("");
      assert "" in DotPieces("");
    }
    assert !FieldPath("a/b") by {
      assert "a/b"[1] == '/';
    }
    assert !FieldPath("a..b") by {
      assert "a..b" == "a" + "." + ".b" && ".b" == "" + "." + "b";
      DotSplit("a", ".b");
      DotSplit("", "b");
      assert DotPieces("a..b")[1] == "";
    }
  }

  /** A field name with no dot and none of `~ * / [ ]` is a field path of one piece. */
  lemma PlainKeyPath(key: string)
    requires FieldName(key) && forall i :: 0 <= i < |key| ==> key[i] !in ".~*/[]"
    ensures FieldPath(key) && DotPieces(key) == [key]
  {
    assert '.' !in key by {
      forall i | 0 <= i < |key| ensures key[i] != '.' {
        assert key[i] !in ".~*/[]";
      }
    }
    NoDotOnePiece(key);
  }

  /** Two such names joined by a dot are a field path of two pieces: `updateDoc` reads "a.b" as `b` inside `a`. */
  lemma DottedKeyPath(a: string, b: string)
    requires FieldName(a) && forall i :: 0 <= i < |a| ==> a[i] !in ".~*/[]"
    requires FieldName(b) && forall i :: 0 <= i < |b| ==> b[i] !in ".~*/[]"
    ensures FieldPath(a + "." + b) && DotPieces(a + "." + b) == [a, b]
  {
    PlainKeyPath(a);
    PlainKeyPath(b);
    DotSplit(a, b);
    var k := a + "." + b;
    forall i | 0 <= i < |k| ensures k[i] !in "~*/[]" {
      if i < |a| {
        assert k[i] == a[i];
      } else if i > |a| {
        assert k[i] == b[i - |a| - 1];
      }
    }
  }

  /** A string of `n` letters. */
  function Letters(n: nat): (s: string)
    ensures |s| == n && '/' !in s
  {
    seq(n, _ => 'k')
  }

  function LongestKey(docs: seq<Doc>): (n: nat)
    ensures forall i :: 0 <= i < |docs| ==> |docs[i].key| <= n
  {
    if docs == [] then 0
    else var m := LongestKey(docs[1..]);
      if |docs[0].key| > m then |docs[0].key| else m
  }

  /** There is always a key no document uses yet, so `addDoc` can always name the new document. */
  lemma FreshKeyExists(docs: seq<Doc>)
    ensures exists k :: ValidKey(k) && !HasKey(docs, k)
  {
    var k := Letters(LongestKey(docs) + 1);
    assert ValidKey(k);
    assert !HasKey(docs, k);
  }

  class Collection {
    const name: string
    var docs: seq<Doc>
    var available: bool

    ghost predicate Valid()
      reads this
    {
      Sorted(docs) && DistinctKeys(docs) && forall i :: 0 <= i < |docs| ==> ValidKey(docs[i].key)
    }

    constructor (name: string, docs: seq<Doc>, available: bool)
      requires Sorted(docs) && forall i :: 0 <= i < |docs| ==> ValidKey(docs[i].key)
      ensures Valid()
      ensures this.name == name && this.docs == docs && this.available == available
    {
      SortedDistinct(docs);
      this.name := name;
      this.docs := docs;
      this.available := available;
    }

    /**
     * `getDoc` on the document at path `key` below the collection. A path of
     * several pieces never matches a stored key: it names a document of a
     * sub-collection, and the backend writes none.
     */
    method GetDoc(key: string) returns (s: Snapshot)
      ensures !available ==> s == Failed
      ensures available ==> s == Lookup(docs, key)
    {
      if !available {
        return Failed;
      }
      s := Lookup(docs, key);
    }

    /** `getDocs(collection)`: every document, in document-ID order. */
    method GetDocs() returns (r: Option<seq<Doc>>)
      ensures r == if available then Some(docs) else None
    {
      if !available {
        return None;
      }
      r := Some(docs);
    }

    /**
     * `addDoc(collection, data)`: the document is stored under a new key,
     * which is returned, and takes its place in document-ID order. Data it
     * cannot write makes it throw, as a failing store does.
     */
    method AddDoc(data: map<string, JVal>) returns (key: Option<string>)
      requires Valid()
      modifies this
      ensures Valid() && available == old(available)
      ensures key.Some? <==> available && Writable(data)
      ensures key.None? ==> docs == old(docs)
      ensures key.Some? ==> ValidKey(key.value) && !HasKey(old(docs), key.value)
      ensures key.Some? ==> docs == Inserted(old(docs), Doc(key.value, data))
    {
      if !available || !Writable(data) {
        return None;
      }
      FreshKeyExists(docs);
      var k :| ValidKey(k) && !HasKey(docs, k);
      InsertedSorted(docs, Doc(k, data));
      SortedDistinct(Inserted(docs, Doc(k, data)));
      docs := Inserted(docs, Doc(k, data));
      key := Some(k);
    }

    /**
     * `updateDoc` on the document at path `key`: fails when there is no such
     * document, and throws for a patch it cannot write.
     */
    method UpdateDoc(key: string, patch: map<string, JVal>) returns (ok: bool)
      requires Valid()
      modifies this
      ensures Valid() && available == old(available)
      ensures ok <==> available && Updatable(patch) && HasKey(old(docs), key)
      ensures docs == if ok then Merged(old(docs), key, patch) else old(docs)
    {
      if !available || !Updatable(patch) || !HasKey(docs, key) {
        return false;
      }
      MergedKeepsKeys(docs, key, patch);
      docs := Merged(docs, key, patch);
      ok := true;
    }

    /** `deleteDoc` on the document at path `key`: succeeds, and changes nothing, when there is no such document. */
    method DeleteDoc(key: string) returns (ok: bool)
      requires Valid()
      modifies this
      ensures Valid() && available == old(available)
      ensures ok == available
      ensures docs == if ok then Removed(old(docs), key) else old(docs)
    {
      if !available {
        return false;
      }
      RemovedKeys(docs, key);
      FilterSorted(docs, (d: Doc) => d.key != key);
      docs := Removed(docs, key);
      ok := true;
    }
  }
}
