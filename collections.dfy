/** The list operations of server/db.ts on the message, gallery and service collections:
    delete by id, change the first record with an id, and the message search. */
module Collections {
  import opened Wrappers
  import opened Lists
  import opened Text
  import opened Records

  /** `i` is the position of the first record whose id is `id`. */
  ghost predicate IsFirstWithId<T>(s: seq<T>, idOf: T -> string, id: string, i: nat) {
    i < |s| && idOf(s[i]) == id && forall j :: 0 <= j < i ==> idOf(s[j]) != id
  }

  /** `list.filter(x => x.id !== id)`: every record with that id goes, the rest stay in order;
      with no such record the list is unchanged, so deleting twice is deleting once. */
  function RemoveById<T>(s: seq<T>, idOf: T -> string, id: string): (r: seq<T>)
    ensures IsSubsequence(r, s)
    ensures forall k :: 0 <= k < |r| ==> idOf(r[k]) != id
    ensures forall k :: 0 <= k < |s| && idOf(s[k]) != id ==> s[k] in r
    ensures (forall k :: 0 <= k < |s| ==> idOf(s[k]) != id) ==> r == s
    ensures |r| == |set k | 0 <= k < |s| && idOf(s[k]) != id|
  {
    var keep := (x: T) => idOf(x) != id;
    FilterIsSubsequence(s, keep);
    FilterKeepsAll(s, keep);
    FilterLengthCounts(s, keep);
    assert Positions(s, keep) == set k | 0 <= k < |s| && idOf(s[k]) != id;
    Filter(s, keep)
  }

  lemma RemoveByIdIdempotent<T>(s: seq<T>, idOf: T -> string, id: string)
    ensures RemoveById(RemoveById(s, idOf, id), idOf, id) == RemoveById(s, idOf, id)
  {
  }

  /** `list.find(x => x.id === id)`. */
  function FindById<T>(s: seq<T>, idOf: T -> string, id: string): (r: Option<T>)
    ensures r.None? <==> forall k :: 0 <= k < |s| ==> idOf(s[k]) != id
    ensures r.Some? ==> exists i: nat :: IsFirstWithId(s, idOf, id, i) && r.value == s[i]
  {
    match FirstIndex(s, (x: T) => idOf(x) == id)
    case None => None
    case Some(i) => Some(s[i])
  }

  /** A record appended under an id no other record has is what a lookup of that id
      finds, and deleting that id gives back the list as it was before the append. */
  lemma {:induction false} AppendFreshThenFindAndRemove<T>(s: seq<T>, idOf: T -> string, x: T)
    requires forall k :: 0 <= k < |s| ==> idOf(s[k]) != idOf(x)
    ensures FindById(s + [x], idOf, idOf(x)) == Some(x)
    ensures RemoveById(s + [x], idOf, idOf(x)) == s
  {
    var keep := (y: T) => idOf(y) != idOf(x);
    FilterConcat(s, [x], keep);
    FilterKeepsAll(s, keep);
    assert [x][1..] == [];
    var t := s + [x];
    assert idOf(t[|s|]) == idOf(x);
    var found := FindById(t, idOf, idOf(x));
    assert found.Some?;
    var i: nat :| IsFirstWithId(t, idOf, idOf(x), i) && found.value == t[i];
    assert i == |s|;
  }

  /** The found record is changed by `f` in place and the whole list is written back:
      only the first record with that id changes; without one nothing changes. */
  function UpdateFirstById<T>(s: seq<T>, idOf: T -> string, id: string, f: T -> T): (r: seq<T>)
    ensures |r| == |s|
    ensures (forall k :: 0 <= k < |s| ==> idOf(s[k]) != id) ==> r == s
    ensures forall i: nat :: IsFirstWithId(s, idOf, id, i) ==> r == s[i := f(s[i])]
  {
    var p := (x: T) => idOf(x) == id;
    assert forall i: nat :: IsFirstWithId(s, idOf, id, i) ==> IsFirst(s, p, i);
    UpdateFirst(s, p, f)
  }

  /** `markMessageAsRead`: only the `read` flag of the first message with that id. */
  function MarkRead(s: seq<ContactMessage>, id: string, read: bool): (r: seq<ContactMessage>)
    ensures |r| == |s|
    ensures (forall k :: 0 <= k < |s| ==> s[k].id != id) ==> r == s
    ensures forall i: nat :: IsFirstWithId(s, MessageId, id, i) ==> r == s[i := s[i].(read := read)]
  {
    UpdateFirstById(s, MessageId, id, (m: ContactMessage) => m.(read := read))
  }

  /** `updateGalleryImage` on the stored list. */
  function PatchImageById(s: seq<GalleryImage>, id: string, p: GalleryPatch): (r: seq<GalleryImage>)
    ensures |r| == |s|
    ensures (forall k :: 0 <= k < |s| ==> s[k].id != id) ==> r == s
    ensures forall i: nat :: IsFirstWithId(s, ImageId, id, i) ==> r == s[i := PatchGalleryImage(s[i], p)]
  {
    UpdateFirstById(s, ImageId, id, (img: GalleryImage) => PatchGalleryImage(img, p))
  }

  /** `updateService` on the stored list. */
  function PatchServiceById(s: seq<Service>, id: string, p: ServicePatch): (r: seq<Service>)
    ensures |r| == |s|
    ensures (forall k :: 0 <= k < |s| ==> s[k].id != id) ==> r == s
    ensures forall i: nat :: IsFirstWithId(s, ServiceId, id, i) ==> r == s[i := PatchService(s[i], p)]
  {
    UpdateFirstById(s, ServiceId, id, (svc: Service) => PatchService(svc, p))
  }

  /** The `searchMessages` test: name, email or body contains the query, ignoring case. */
  predicate MatchesSearch(m: ContactMessage, query: string) {
    var q := ToLower(query);
    Includes(ToLower(m.name), q) || Includes(ToLower(m.email), q) || Includes(ToLower(m.message), q)
  }

  /** `searchMessages`: the matching messages in stored order; the empty query matches all. */
  function SearchMessages(s: seq<ContactMessage>, query: string): (r: seq<ContactMessage>)
    ensures IsSubsequence(r, s)
    ensures forall k :: 0 <= k < |r| ==> r[k] in s && MatchesSearch(r[k], query)
    ensures forall k :: 0 <= k < |s| && MatchesSearch(s[k], query) ==> s[k] in r
    ensures query == "" ==> r == s
    ensures |r| == |set k | 0 <= k < |s| && MatchesSearch(s[k], query)|
  {
    var keep := (m: ContactMessage) => MatchesSearch(m, query);
    FilterIsSubsequence(s, keep);
    FilterLengthCounts(s, keep);
    assert Positions(s, keep) == set k | 0 <= k < |s| && MatchesSearch(s[k], query);
    if query == "" then
      assert forall k :: 0 <= k < |s| ==> keep(s[k]) by {
        forall k | 0 <= k < |s| ensures keep(s[k]) { IncludesEmpty(ToLower(s[k].name)); }
      }
      FilterKeepsAll(s, keep);
      Filter(s, keep)
    else
      Filter(s, keep)
  }

  /** The stored record of a singleton collection, or the default when the file holds none. */
  function Current<T>(stored: seq<T>, default: T): (r: T)
    ensures stored == [] ==> r == default
    ensures stored != [] ==> r == stored[0] && r in stored
  {
    if |stored| > 0 then stored[0] else default
  }
}
