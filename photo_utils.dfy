/** `get_best_photoinfo` of utils.py: choose the most desirable rendition of a
    photo from the records the service lists for it, skipping rendition types
    the caller excludes. */
module PhotoUtils {
  import opened Wrappers

  /** One photo record. `photoType` is `None` when the record has no
      `photoType` key; the other keys are opaque to the selector. */
  datatype PhotoInfo = PhotoInfo(photoType: Option<string>, fields: map<string, string>)

  /** The exceptions the Python function can raise. Separate from
      `GroupsApi.ApiError`, whose `KeyError` has the same meaning: each module
      lists only the failures of its own source file. */
  datatype PyError =
    | IndexError          // `photoInfoArr[0]` on an empty list
    | KeyError(key: string)  // a missing dictionary key

  /** The rank table before exclusions: tn < sn < hr < or. */
  const InitialRanks: map<string, int> := map["tn" := 0, "sn" := 1, "hr" := 2, "or" := 3]

  /** The rendition types the selector knows. */
  const KnownTypes: set<string> := {"tn", "sn", "hr", "or"}

  /** The rank table after every known type listed in `exclude` is lowered to -1. */
  function RankTable(exclude: seq<string>): map<string, int>
  {
    map t | t in InitialRanks :: if t in exclude then -1 else InitialRanks[t]
  }

  /** The exclusion loop: `rs` starts as the fixed table and is updated in
      place once per excluded name that is a key of it. */
  method BuildRankTable(exclude: seq<string>) returns (rs: map<string, int>)
    ensures rs.Keys == KnownTypes
    ensures forall t :: t in rs ==> rs[t] == if t in exclude then -1 else InitialRanks[t]
  {
    rs := InitialRanks;
    for i := 0 to |exclude|
      invariant rs.Keys == KnownTypes
      invariant forall t :: t in rs ==> rs[t] == if t in exclude[..i] then -1 else InitialRanks[t]
    {
      var x := exclude[i];
      assert exclude[..i + 1] == exclude[..i] + [x];
      if x in rs {
        rs := rs[x := -1];
      }
    }
    assert exclude[..|exclude|] == exclude;
  }

  /** The record's type is present and is a key of the rank table. */
  predicate Known(rs: map<string, int>, p: PhotoInfo)
  {
    p.photoType.Some? && p.photoType.value in rs
  }

  function Rank(rs: map<string, int>, p: PhotoInfo): int
    requires Known(rs, p)
  {
    rs[p.photoType.value]
  }

  /** One pass of the scan loop: look at `info` with `best` so far. */
  function Step(rs: map<string, int>, best: PhotoInfo, info: PhotoInfo): Result<PhotoInfo, PyError>
  {
    if info.photoType.None? then Failure(KeyError("photoType"))
    else if info.photoType.value !in rs then Success(best)
    else if best.photoType.None? then Failure(KeyError("photoType"))
    else if best.photoType.value !in rs then Failure(KeyError(best.photoType.value))
    else if rs[info.photoType.value] >= rs[best.photoType.value] then Success(info)
    else Success(best)
  }

  /** The scan over the records `ps` still to be visited, starting from `best`. */
  function Scan(rs: map<string, int>, ps: seq<PhotoInfo>, best: PhotoInfo): Result<PhotoInfo, PyError>
  {
    if |ps| == 0 then Success(best)
    else match Step(rs, best, ps[0])
      case Failure(e) => Failure(e)
      case Success(b) => Scan(rs, ps[1..], b)
  }

  /** The final test: a winner of rank -1 means no acceptable rendition. */
  function Finish(rs: map<string, int>, best: PhotoInfo): Result<Option<PhotoInfo>, PyError>
  {
    if best.photoType.None? then Failure(KeyError("photoType"))
    else if best.photoType.value !in rs then Failure(KeyError(best.photoType.value))
    else if rs[best.photoType.value] == -1 then Success(None)
    else Success(Some(best))
  }

  /** What `get_best_photoinfo(photos, exclude)` returns or raises. */
  function BestPhotoInfo(photos: seq<PhotoInfo>, exclude: seq<string>): Result<Option<PhotoInfo>, PyError>
  {
    if |photos| == 0 then Failure(IndexError)
    else
      var rs := RankTable(exclude);
      match Scan(rs, photos, photos[0])
      case Failure(e) => Failure(e)
      case Success(b) => Finish(rs, b)
  }

  /** `get_best_photoinfo`: the running `best` starts at the first record and
      is replaced by every known-typed record whose rank is at least its own. */
  method GetBestPhotoInfo(photos: seq<PhotoInfo>, exclude: seq<string>)
    returns (r: Result<Option<PhotoInfo>, PyError>)
    ensures r == BestPhotoInfo(photos, exclude)
  {
    var rs := BuildRankTable(exclude);
    assert rs == RankTable(exclude);
    if |photos| == 0 {
      return Failure(IndexError);
    }
    var best := photos[0];
    var i := 0;
    while i < |photos|
      invariant 0 <= i <= |photos|
      invariant Scan(rs, photos[i..], best) == Scan(rs, photos, photos[0])
    {
      var info := photos[i];
      assert photos[i..][1..] == photos[i + 1..];
      if info.photoType.None? {
        return Failure(KeyError("photoType"));
      }
      if info.photoType.value !in rs {
        i := i + 1;
        continue;
      }
      if best.photoType.None? {
        return Failure(KeyError("photoType"));
      }
      if best.photoType.value !in rs {
        return Failure(KeyError(best.photoType.value));
      }
      if rs[info.photoType.value] >= rs[best.photoType.value] {
        best := info;
      }
      i := i + 1;
    }
    if best.photoType.None? {
      r := Failure(KeyError("photoType"));
    } else if best.photoType.value !in rs {
      r := Failure(KeyError(best.photoType.value));
    } else if rs[best.photoType.value] == -1 {
      r := Success(None);
    } else {
      r := Success(Some(best));
    }
  }

  // ---------------------------------------------------------------------------
  // What the selection means

  /** Position `k` holds a known-typed record and every known-typed record
      after it ranks strictly lower. */
  predicate LastBest(rs: map<string, int>, ps: seq<PhotoInfo>, k: int)
  {
    && 0 <= k < |ps|
    && Known(rs, ps[k])
    && forall j :: k < j < |ps| && Known(rs, ps[j]) ==> Rank(rs, ps[j]) < Rank(rs, ps[k])
  }

  /** A scan over records that all carry a type, from a known-typed `best`,
      succeeds with a known-typed record of maximal rank that is either the
      last such record in `ps` or, when every known record of `ps` ranks below
      it, `best` itself. */
  lemma {:induction false} ScanWinner(rs: map<string, int>, ps: seq<PhotoInfo>, best: PhotoInfo)
    requires Known(rs, best)
    requires forall j :: 0 <= j < |ps| ==> ps[j].photoType.Some?
    ensures Scan(rs, ps, best).Success?
    ensures Known(rs, Scan(rs, ps, best).value)
    ensures Rank(rs, best) <= Rank(rs, Scan(rs, ps, best).value)
    ensures forall j :: 0 <= j < |ps| && Known(rs, ps[j]) ==>
              Rank(rs, ps[j]) <= Rank(rs, Scan(rs, ps, best).value)
    ensures var b := Scan(rs, ps, best).value;
            || (b == best && forall j :: 0 <= j < |ps| && Known(rs, ps[j]) ==> Rank(rs, ps[j]) < Rank(rs, b))
            || exists k :: LastBest(rs, ps, k) && ps[k] == b
  {
    if |ps| > 0 {
      var p, rest := ps[0], ps[1..];
      var next := Step(rs, best, p);
      assert next.Success?;
      ScanWinner(rs, rest, next.value);
      var b := Scan(rs, ps, best).value;
      assert b == Scan(rs, rest, next.value).value;
      forall j | 0 < j < |ps| && Known(rs, ps[j])
        ensures Rank(rs, ps[j]) <= Rank(rs, b)
      {
        assert ps[j] == rest[j - 1];
      }
      if exists k :: LastBest(rs, rest, k) && rest[k] == b {
        var k :| LastBest(rs, rest, k) && rest[k] == b;
        assert LastBest(rs, ps, k + 1) by {
          forall j | k + 1 < j < |ps| && Known(rs, ps[j])
            ensures Rank(rs, ps[j]) < Rank(rs, ps[k + 1])
          {
            assert ps[j] == rest[j - 1];
          }
        }
      } else if next.value == p && Known(rs, p) {
        assert b == p;
        assert LastBest(rs, ps, 0) by {
          forall j | 0 < j < |ps| && Known(rs, ps[j])
            ensures Rank(rs, ps[j]) < Rank(rs, ps[0])
          {
            assert ps[j] == rest[j - 1];
          }
        }
      } else {
        assert b == best;
        forall j | 0 <= j < |ps| && Known(rs, ps[j])
          ensures Rank(rs, ps[j]) < Rank(rs, b)
        {
          if j > 0 {
            assert ps[j] == rest[j - 1];
          }
        }
      }
    }
  }

  /** The selection succeeds exactly when every record has a type and the
      first one is known; what fails raises the documented exception. */
  lemma SelectionErrors(photos: seq<PhotoInfo>, exclude: seq<string>)
    ensures BestPhotoInfo(photos, exclude).Failure? <==>
              || |photos| == 0
              || (exists j :: 0 <= j < |photos| && photos[j].photoType.None?)
              || !Known(RankTable(exclude), photos[0])
    ensures |photos| == 0 ==> BestPhotoInfo(photos, exclude) == Failure(IndexError)
    ensures (&& |photos| > 0 && Known(RankTable(exclude), photos[0])
             && exists j :: 0 <= j < |photos| && photos[j].photoType.None?)
            ==> BestPhotoInfo(photos, exclude) == Failure(KeyError("photoType"))
    ensures (&& |photos| > 0 && photos[0].photoType.Some? && photos[0].photoType.value !in KnownTypes
             && forall j :: 0 <= j < |photos| ==> photos[j].photoType.Some?)
            ==> BestPhotoInfo(photos, exclude) == Failure(KeyError(photos[0].photoType.value))
  {
    var rs := RankTable(exclude);
    if |photos| > 0 {
      if Known(rs, photos[0]) {
        if forall j :: 0 <= j < |photos| ==> photos[j].photoType.Some? {
          ScanWinner(rs, photos, photos[0]);
        } else {
          ScanFailsOnMissingType(rs, photos, photos[0]);
        }
      } else if photos[0].photoType.Some? {
        ScanFromUnknownFails(rs, photos, photos[0]);
      }
    }
  }

  /** From a known-typed `best`, a record without a type makes the scan fail
      with `KeyError('photoType')`. */
  lemma {:induction false} ScanFailsOnMissingType(rs: map<string, int>, ps: seq<PhotoInfo>, best: PhotoInfo)
    requires Known(rs, best)
    requires exists j :: 0 <= j < |ps| && ps[j].photoType.None?
    ensures Scan(rs, ps, best) == Failure(KeyError("photoType"))
  {
    if ps[0].photoType.Some? {
      var j :| 0 <= j < |ps| && ps[j].photoType.None?;
      assert ps[1..][j - 1] == ps[j];
      ScanFailsOnMissingType(rs, ps[1..], Step(rs, best, ps[0]).value);
    }
  }

  /** When `best` has a type the table does not know, the scan fails: with
      `KeyError('photoType')` at a record without a type, otherwise with a
      `KeyError` for `best`'s type, at the first known record or at the end. */
  lemma {:induction false} ScanFromUnknownFails(rs: map<string, int>, ps: seq<PhotoInfo>, best: PhotoInfo)
    requires best.photoType.Some? && best.photoType.value !in rs
    ensures match Scan(rs, ps, best)
      case Failure(e) => e == KeyError("photoType") || e == KeyError(best.photoType.value)
      case Success(b) => b == best
    ensures (forall j :: 0 <= j < |ps| ==> ps[j].photoType.Some?) ==>
              Scan(rs, ps, best) in {Success(best), Failure(KeyError(best.photoType.value))}
  {
    if |ps| > 0 && ps[0].photoType.Some? && ps[0].photoType.value !in rs {
      ScanFromUnknownFails(rs, ps[1..], best);
      assert forall j :: 0 <= j < |ps[1..]| ==> ps[1..][j] == ps[j + 1];
    }
  }

  /** A returned record is one of the inputs, of a known type that is not
      excluded, and of the highest rank among the known-typed records. */
  lemma SelectedIsBest(photos: seq<PhotoInfo>, exclude: seq<string>)
    requires BestPhotoInfo(photos, exclude).Success?
    requires BestPhotoInfo(photos, exclude).value.Some?
    ensures var p := BestPhotoInfo(photos, exclude).value.value;
            && p in photos
            && p.photoType.Some? && p.photoType.value in KnownTypes && p.photoType.value !in exclude
            && forall j :: 0 <= j < |photos| && Known(RankTable(exclude), photos[j]) ==>
                 Rank(RankTable(exclude), photos[j]) <= Rank(RankTable(exclude), p)
  {
    var rs := RankTable(exclude);
    SelectionErrors(photos, exclude);
    ScanWinner(rs, photos, photos[0]);
  }

  /** Ties go to the later record: the result is the last known-typed record
      of maximal rank. */
  lemma SelectedIsLastOfItsRank(photos: seq<PhotoInfo>, exclude: seq<string>)
    requires BestPhotoInfo(photos, exclude).Success?
    requires BestPhotoInfo(photos, exclude).value.Some?
    ensures exists k :: LastBest(RankTable(exclude), photos, k)
                        && photos[k] == BestPhotoInfo(photos, exclude).value.value
  {
    var rs := RankTable(exclude);
    SelectionErrors(photos, exclude);
    ScanWinner(rs, photos, photos[0]);
  }

  /** "No suitable rendition" is returned exactly when every known-typed
      record has an excluded type. */
  lemma NoneIffAllExcluded(photos: seq<PhotoInfo>, exclude: seq<string>)
    requires BestPhotoInfo(photos, exclude).Success?
    ensures BestPhotoInfo(photos, exclude).value.None? <==>
              forall j :: 0 <= j < |photos| && photos[j].photoType.Some? && photos[j].photoType.value in KnownTypes
                ==> photos[j].photoType.value in exclude
  {
    var rs := RankTable(exclude);
    SelectionErrors(photos, exclude);
    ScanWinner(rs, photos, photos[0]);
  }

  /** Only the known types named in `exclude` matter: unknown names, order
      and repetition have no effect, so no state carries between calls. */
  lemma ExclusionsOnlyOfKnownTypes(photos: seq<PhotoInfo>, e1: seq<string>, e2: seq<string>)
    requires forall t :: t in KnownTypes ==> (t in e1 <==> t in e2)
    ensures RankTable(e1) == RankTable(e2)
    ensures BestPhotoInfo(photos, e1) == BestPhotoInfo(photos, e2)
  {
  }

  /** A record of unknown type after the first is skipped: deleting it does
      not change the outcome. */
  lemma UnknownRecordSkipped(photos: seq<PhotoInfo>, exclude: seq<string>, j: nat)
    requires 0 < j < |photos|
    requires photos[j].photoType.Some? && photos[j].photoType.value !in KnownTypes
    ensures BestPhotoInfo(photos, exclude) == BestPhotoInfo(photos[..j] + photos[j + 1..], exclude)
  {
    var rs := RankTable(exclude);
    ScanSkip(rs, photos, j, photos[0]);
  }

  lemma {:induction false} ScanSkip(rs: map<string, int>, ps: seq<PhotoInfo>, j: nat, best: PhotoInfo)
    requires j < |ps|
    requires ps[j].photoType.Some? && ps[j].photoType.value !in rs
    ensures Scan(rs, ps, best) == Scan(rs, ps[..j] + ps[j + 1..], best)
    decreases j
  {
    var qs := ps[..j] + ps[j + 1..];
    if j == 0 {
      assert qs == ps[1..];
    } else {
      assert qs[0] == ps[0];
      assert qs[1..] == ps[1..][..j - 1] + ps[1..][j..];
      match Step(rs, best, ps[0])
      case Failure(_) =>
      case Success(b) => ScanSkip(rs, ps[1..], j - 1, b);
    }
  }

  // ---------------------------------------------------------------------------
  // An unknown type in the FIRST record is fatal: `best` starts there and is
  // looked up in the rank table at line 18 or 20. Every other unknown record
  // is skipped. Below: the input that shows it, and the selection with the
  // first-record exception removed.

  /** `[xx, hr]` raises `KeyError('xx')` instead of returning the `hr` record. */
  lemma UnknownFirstRecordIsFatal()
    ensures var hr := PhotoInfo(Some("hr"), map[]);
            var photos := [PhotoInfo(Some("xx"), map[]), hr];
            && BestPhotoInfo(photos, []) == Failure(KeyError("xx"))
            && BestPhotoInfoSkippingUnknown(photos, []) == Success(Some(hr))
  {
  }

  /** The records whose type is one of the known renditions, in order. */
  function KnownOnly(ps: seq<PhotoInfo>): (r: seq<PhotoInfo>)
    ensures |r| <= |ps|
    ensures forall p :: p in r <==> p in ps && p.photoType.Some? && p.photoType.value in KnownTypes
  {
    if |ps| == 0 then []
    else if ps[0].photoType.Some? && ps[0].photoType.value in KnownTypes then [ps[0]] + KnownOnly(ps[1..])
    else KnownOnly(ps[1..])
  }

  /** `KnownOnly` keeps the order of its input: filtering a concatenation
      concatenates the filtered parts. */
  lemma {:induction false} KnownOnlyKeepsOrder(a: seq<PhotoInfo>, b: seq<PhotoInfo>)
    ensures KnownOnly(a + b) == KnownOnly(a) + KnownOnly(b)
  {
    if |a| == 0 {
      assert a + b == b;
    } else {
      assert (a + b)[0] == a[0];
      assert (a + b)[1..] == a[1..] + b;
      KnownOnlyKeepsOrder(a[1..], b);
    }
  }

  /** The selection as intended: a record of unknown type is skipped wherever
      it stands; with no known record at all there is no suitable rendition. */
  function BestPhotoInfoSkippingUnknown(photos: seq<PhotoInfo>, exclude: seq<string>): Result<Option<PhotoInfo>, PyError>
  {
    if |photos| == 0 then Failure(IndexError)
    else if exists j :: 0 <= j < |photos| && photos[j].photoType.None? then Failure(KeyError("photoType"))
    else if |KnownOnly(photos)| == 0 then Success(None)
    else BestPhotoInfo(KnownOnly(photos), exclude)
  }

  /** Dropping the unknown records does not change a scan over typed records. */
  lemma {:induction false} ScanKnownOnly(rs: map<string, int>, ps: seq<PhotoInfo>, best: PhotoInfo)
    requires rs.Keys == KnownTypes
    requires forall j :: 0 <= j < |ps| ==> ps[j].photoType.Some?
    ensures Scan(rs, ps, best) == Scan(rs, KnownOnly(ps), best)
  {
    if |ps| > 0 {
      assert forall j :: 0 <= j < |ps[1..]| ==> ps[1..][j] == ps[j + 1];
      var kept := KnownOnly(ps);
      if ps[0].photoType.value in KnownTypes {
        assert kept[0] == ps[0] && kept[1..] == KnownOnly(ps[1..]);
        match Step(rs, best, ps[0])
        case Failure(_) =>
        case Success(b) => ScanKnownOnly(rs, ps[1..], b);
      } else {
        ScanKnownOnly(rs, ps[1..], best);
      }
    }
  }

  /** Unknown records are never fatal in the corrected selection: on typed
      input it succeeds, agrees with the code wherever the code succeeds,
      returns a known, non-excluded input record of maximal rank, the last
      one of that rank, and returns no rendition exactly when every known
      record is excluded. */
  lemma SkippingUnknownSelectsBest(photos: seq<PhotoInfo>, exclude: seq<string>)
    requires |photos| > 0
    requires forall j :: 0 <= j < |photos| ==> photos[j].photoType.Some?
    ensures BestPhotoInfoSkippingUnknown(photos, exclude).Success?
    ensures BestPhotoInfo(photos, exclude).Success? ==>
              BestPhotoInfoSkippingUnknown(photos, exclude) == BestPhotoInfo(photos, exclude)
    ensures var r := BestPhotoInfoSkippingUnknown(photos, exclude).value;
            && (r.None? <==> forall j :: 0 <= j < |photos| && photos[j].photoType.value in KnownTypes
                                 ==> photos[j].photoType.value in exclude)
            && (r.Some? ==>
                  && r.value in photos
                  && r.value.photoType.Some? && r.value.photoType.value in KnownTypes
                  && r.value.photoType.value !in exclude
                  && (forall j :: 0 <= j < |photos| && Known(RankTable(exclude), photos[j]) ==>
                        Rank(RankTable(exclude), photos[j]) <= Rank(RankTable(exclude), r.value))
                  && exists k :: LastBest(RankTable(exclude), photos, k) && photos[k] == r.value)
  {
    var rs := RankTable(exclude);
    var ks := KnownOnly(photos);
    assert rs.Keys == KnownTypes;
    SelectionErrors(photos, exclude);
    if |ks| == 0 {
      assert photos[0] !in ks;
      forall j | 0 <= j < |photos| ensures photos[j].photoType.value !in KnownTypes {
        assert photos[j] in photos;
      }
    } else {
      assert ks[0] in ks;
      forall j | 0 <= j < |ks| ensures ks[j].photoType.Some? {
        assert ks[j] in ks;
      }
      SelectionErrors(ks, exclude);
      NoneIffAllExcluded(ks, exclude);
      var r := BestPhotoInfo(ks, exclude).value;
      if r.Some? {
        SelectedIsBest(ks, exclude);
        forall j | 0 <= j < |photos| && Known(rs, photos[j])
          ensures Rank(rs, photos[j]) <= Rank(rs, r.value)
        {
          assert photos[j] in ks;
          var i :| 0 <= i < |ks| && ks[i] == photos[j];
        }
        // Ties: the scan over all records from the first known one picks
        // the same record, and it cannot be that start alone.
        ScanKnownOnly(rs, photos, ks[0]);
        ScanWinner(rs, photos, ks[0]);
        assert r.value == Scan(rs, photos, ks[0]).value;
        var i0 :| 0 <= i0 < |photos| && photos[i0] == ks[0];
        assert Known(rs, photos[i0]);
      }
      forall j | 0 <= j < |photos| && photos[j].photoType.value in KnownTypes
        ensures photos[j] in ks
      {
        assert photos[j] in photos;
      }
      forall j | 0 <= j < |ks| ensures ks[j] in photos {
        assert ks[j] in ks;
      }
      if r.None? {
        forall j | 0 <= j < |photos| && photos[j].photoType.value in KnownTypes
          ensures photos[j].photoType.value in exclude
        {
          var i :| 0 <= i < |ks| && ks[i] == photos[j];
        }
      }
      if BestPhotoInfo(photos, exclude).Success? {
        ScanKnownOnly(rs, photos, photos[0]);
        assert ks[0] == photos[0] by {
          assert photos[0].photoType.value in KnownTypes;
        }
      }
    }
  }
}
