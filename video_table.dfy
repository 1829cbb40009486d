/**
 * The `videos` collection of backend/server.py as a sequence of records in
 * insertion order, and the queries the handlers run on it: the owner filter
 * with its 1000-entry cap and payload-free projection (`get_user_videos`), and
 * the first record matching both an id and an owner (`find_one` and
 * `delete_one` in `get_video` and `delete_video`).
 */
module VideoTable {
  import opened Wrappers
  import opened Models

  /** `to_list(1000)`: the most entries a list request returns. */
  const ListLimit := 1000

  /** The query `{"id": id, "user_id": userId}`. */
  predicate Matches(v: VideoRecord, id: string, userId: string)
  {
    v.id == id && v.userId == userId
  }

  /** No two stored videos share an id (ids come from `uuid4`). */
  ghost predicate UniqueIds(vs: seq<VideoRecord>)
  {
    forall i, j :: 0 <= i < j < |vs| ==> vs[i].id != vs[j].id
  }

  /** No stored video has the id `id`. */
  ghost predicate FreshId(vs: seq<VideoRecord>, id: string)
  {
    forall v :: v in vs ==> v.id != id
  }

  /** The records owned by `userId`, in stored order (`find({"user_id": userId})`). */
  function OwnedBy(vs: seq<VideoRecord>, userId: string): (r: seq<VideoRecord>)
    ensures |r| <= |vs|
    ensures forall v :: v in r <==> v in vs && v.userId == userId
  {
    if vs == [] then []
    else
      var last := vs[|vs| - 1];
      OwnedBy(vs[..|vs| - 1], userId) + (if last.userId == userId then [last] else [])
  }

  /** Appending a record extends its owner's records by it and nobody else's. */
  lemma {:induction false} OwnedByAppend(vs: seq<VideoRecord>, v: VideoRecord, userId: string)
    ensures OwnedBy(vs + [v], userId) == OwnedBy(vs, userId) + (if v.userId == userId then [v] else [])
  {
    assert (vs + [v])[..|vs|] == vs;
  }

  /** The list-view entry of a record: every field but `video_data`. */
  function Summarize(v: VideoRecord): VideoSummary
  {
    VideoSummary(v.id, v.timestamp, v.locationLat, v.locationLng, v.phoneNumber)
  }

  /**
   * `get_user_videos` on the table: the summaries of the first 1000 records
   * owned by `userId`, in stored order.
   */
  function ListVideos(vs: seq<VideoRecord>, userId: string): (r: seq<VideoSummary>)
    ensures |r| <= ListLimit && |r| <= |OwnedBy(vs, userId)|
    ensures |OwnedBy(vs, userId)| >= ListLimit ==> |r| == ListLimit
    ensures |OwnedBy(vs, userId)| <= ListLimit ==> |r| == |OwnedBy(vs, userId)|
    ensures forall i :: 0 <= i < |r| ==> r[i] == Summarize(OwnedBy(vs, userId)[i])
  {
    var owned := OwnedBy(vs, userId);
    var kept := if |owned| <= ListLimit then owned else owned[..ListLimit];
    seq(|kept|, i requires 0 <= i < |kept| => Summarize(kept[i]))
  }

  /** Only the caller's own records appear in the list view. */
  lemma ListVideosOnlyOwn(vs: seq<VideoRecord>, userId: string)
    ensures forall s :: s in ListVideos(vs, userId) ==>
              exists v :: v in vs && v.userId == userId && Summarize(v) == s
  {
    var owned := OwnedBy(vs, userId);
    var r := ListVideos(vs, userId);
    forall s | s in r
      ensures exists v :: v in vs && v.userId == userId && Summarize(v) == s
    {
      var i :| 0 <= i < |r| && r[i] == s;
      assert owned[i] in owned;
    }
  }

  /** When the caller has at most 1000 records, every one of them appears in the list view. */
  lemma ListVideosComplete(vs: seq<VideoRecord>, userId: string)
    requires |OwnedBy(vs, userId)| <= ListLimit
    ensures forall v :: v in vs && v.userId == userId ==> Summarize(v) in ListVideos(vs, userId)
  {
    var owned := OwnedBy(vs, userId);
    var r := ListVideos(vs, userId);
    forall v | v in vs && v.userId == userId
      ensures Summarize(v) in r
    {
      var i :| 0 <= i < |owned| && owned[i] == v;
      assert r[i] == Summarize(v);
    }
  }

  /**
   * An upload appears in its owner's list view, unless the owner already
   * had the full 1000 records.
   */
  lemma UploadIsListed(vs: seq<VideoRecord>, v: VideoRecord)
    requires |OwnedBy(vs, v.userId)| < ListLimit
    ensures Summarize(v) in ListVideos(vs + [v], v.userId)
    ensures exists s :: s in ListVideos(vs + [v], v.userId) && s.id == v.id
  {
    OwnedByAppend(vs, v, v.userId);
    var r := ListVideos(vs + [v], v.userId);
    var k := |OwnedBy(vs, v.userId)|;
    assert r[k] == Summarize(v);
  }

  /** An upload by one user leaves every other user's list view as it was. */
  lemma UploadInvisibleToOthers(vs: seq<VideoRecord>, v: VideoRecord, userId: string)
    requires v.userId != userId
    ensures ListVideos(vs + [v], userId) == ListVideos(vs, userId)
  {
    OwnedByAppend(vs, v, userId);
  }

  /**
   * The position of the first record matching both the id and the owner
   * (`find_one` and `delete_one` with `{"id": id, "user_id": userId}`).
   */
  function FirstMatch(vs: seq<VideoRecord>, id: string, userId: string): (r: Option<nat>)
    ensures r.None? <==> forall v :: v in vs ==> !Matches(v, id, userId)
    ensures r.Some? ==> r.value < |vs| && Matches(vs[r.value], id, userId)
    ensures r.Some? ==> forall j :: 0 <= j < r.value ==> !Matches(vs[j], id, userId)
  {
    if vs == [] then None
    else if Matches(vs[0], id, userId) then Some(0)
    else
      match FirstMatch(vs[1..], id, userId)
      case None => None
      case Some(i) => Some(i + 1)
  }

  /** A video that exists but belongs to someone else is not found for the caller. */
  lemma OthersVideoNotFound(vs: seq<VideoRecord>, i: nat, userId: string)
    requires UniqueIds(vs)
    requires i < |vs| && vs[i].userId != userId
    ensures FirstMatch(vs, vs[i].id, userId) == None
  {
    forall v | v in vs
      ensures !Matches(v, vs[i].id, userId)
    {
      var j :| 0 <= j < |vs| && vs[j] == v;
      if j != i {
        assert vs[j].id != vs[i].id;
      }
    }
  }

  /** The table without the record at position `i`. */
  function RemoveAt(vs: seq<VideoRecord>, i: nat): (r: seq<VideoRecord>)
    requires i < |vs|
    ensures |r| == |vs| - 1
    ensures multiset(r) + multiset{vs[i]} == multiset(vs)
    ensures forall j :: 0 <= j < i ==> r[j] == vs[j]
    ensures forall j :: i <= j < |r| ==> r[j] == vs[j + 1]
  {
    assert vs == vs[..i] + [vs[i]] + vs[i + 1..];
    vs[..i] + vs[i + 1..]
  }

  /** Removing a record keeps the remaining ids distinct and drops its id altogether. */
  lemma RemoveAtKeepsIdsUnique(vs: seq<VideoRecord>, i: nat)
    requires UniqueIds(vs)
    requires i < |vs|
    ensures UniqueIds(RemoveAt(vs, i))
    ensures FreshId(RemoveAt(vs, i), vs[i].id)
  {
    var r := RemoveAt(vs, i);
    forall a, b | 0 <= a < b < |r|
      ensures r[a].id != r[b].id
    {
      var a', b' := Shift(i, a), Shift(i, b);
      assert r[a] == vs[a'] && r[b] == vs[b'] && a' < b';
    }
    forall v | v in r
      ensures v.id != vs[i].id
    {
      var a :| 0 <= a < |r| && r[a] == v;
      assert r[a] == vs[Shift(i, a)] && Shift(i, a) != i;
    }
  }

  /** The position in the old table of position `a` once position `i` is removed. */
  function Shift(i: nat, a: nat): nat
  {
    if a < i then a else a + 1
  }

  /**
   * After the one matching record is removed, the caller can neither fetch it
   * nor see it in the list view.
   */
  lemma DeletedVideoIsGone(vs: seq<VideoRecord>, id: string, userId: string)
    requires UniqueIds(vs)
    requires FirstMatch(vs, id, userId).Some?
    ensures FirstMatch(RemoveAt(vs, FirstMatch(vs, id, userId).value), id, userId) == None
    ensures forall s :: s in ListVideos(RemoveAt(vs, FirstMatch(vs, id, userId).value), userId) ==> s.id != id
  {
    var i := FirstMatch(vs, id, userId).value;
    RemoveAtKeepsIdsUnique(vs, i);
    ListVideosOnlyOwn(RemoveAt(vs, i), userId);
  }

  /** Adding a record with a fresh id keeps the ids distinct. */
  lemma AppendFreshKeepsIdsUnique(vs: seq<VideoRecord>, v: VideoRecord)
    requires UniqueIds(vs)
    requires FreshId(vs, v.id)
    ensures UniqueIds(vs + [v])
  {
    var r := vs + [v];
    forall a, b | 0 <= a < b < |r|
      ensures r[a].id != r[b].id
    {
      if b == |vs| {
        assert r[a] in vs;
      } else {
        assert r[a] == vs[a] && r[b] == vs[b];
      }
    }
  }
}
