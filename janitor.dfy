/** The start-up sweep of the upload directory (`cleanUpOldUploads`): every regular
    file whose name carries the payment-screenshot prefix and that is older than one
    day is deleted. The directory listing and the clock are parameters. */
module UploadJanitor {

  /** 24 hours in milliseconds. */
  const MaxAgeMs: int := 24 * 60 * 60 * 1000

  const ScreenshotPrefix: string := "paymentScreenshot-"

  /** One directory entry with the two facts `fs.stat` reports about it. */
  datatype DirEntry = DirEntry(name: string, isFile: bool, mtimeMs: int)

  /** The deletion test applied to each entry. */
  predicate IsStale(e: DirEntry, now: int) {
    e.isFile && now - e.mtimeMs > MaxAgeMs && ScreenshotPrefix <= e.name
  }

  /** The entries the sweep leaves in place, in listing order. */
  function Survivors(files: seq<DirEntry>, now: int): (r: seq<DirEntry>)
    ensures |r| <= |files|
    ensures forall e :: e in r <==> e in files && !IsStale(e, now)
  {
    if files == [] then []
    else
      var last := files[|files| - 1];
      Survivors(files[..|files| - 1], now) + (if IsStale(last, now) then [] else [last])
  }

  /** The names the sweep deletes, in listing order. */
  function Deleted(files: seq<DirEntry>, now: int): (r: seq<string>)
    ensures |r| + |Survivors(files, now)| == |files|
    ensures forall i :: 0 <= i < |r| ==> ScreenshotPrefix <= r[i]
  {
    if files == [] then []
    else
      var last := files[|files| - 1];
      Deleted(files[..|files| - 1], now) + (if IsStale(last, now) then [last.name] else [])
  }

  /** The deleted names are exactly the names of the stale entries. */
  lemma {:induction false} DeletedExactlyStale(files: seq<DirEntry>, now: int)
    ensures forall e :: e in files && IsStale(e, now) ==> e.name in Deleted(files, now)
    ensures forall n :: n in Deleted(files, now) ==> exists e :: e in files && IsStale(e, now) && e.name == n
  {
    if files != [] {
      var init, last := files[..|files| - 1], files[|files| - 1];
      assert files == init + [last];
      DeletedExactlyStale(init, now);
      var r := Deleted(files, now);
      assert r == Deleted(init, now) + (if IsStale(last, now) then [last.name] else []);
      forall n | n in r ensures exists e :: e in files && IsStale(e, now) && e.name == n {
        if n in Deleted(init, now) {
          var e :| e in init && IsStale(e, now) && e.name == n;
          assert e in files;
        } else {
          assert last in files;
        }
      }
    }
  }

  /** The sweep treats the listing one entry at a time: the survivors of two
      consecutive parts of a listing are the survivors of each, in that order. */
  lemma {:induction false} SurvivorsConcat(a: seq<DirEntry>, b: seq<DirEntry>, now: int)
    ensures Survivors(a + b, now) == Survivors(a, now) + Survivors(b, now)
  {
    if b != [] {
      var init, last := b[..|b| - 1], b[|b| - 1];
      assert (a + b)[..|a + b| - 1] == a + init;
      SurvivorsConcat(a, init, now);
    } else {
      assert a + b == a;
    }
  }

  /** Likewise for the deleted names: they come out in listing order. */
  lemma {:induction false} DeletedConcat(a: seq<DirEntry>, b: seq<DirEntry>, now: int)
    ensures Deleted(a + b, now) == Deleted(a, now) + Deleted(b, now)
  {
    if b != [] {
      var init, last := b[..|b| - 1], b[|b| - 1];
      assert (a + b)[..|a + b| - 1] == a + init;
      DeletedConcat(a, init, now);
    } else {
      assert a + b == a;
    }
  }

  /** A file is kept when it is a day old or younger: the age test is strict. */
  lemma ExactlyOneDayIsKept(name: string, now: int)
    ensures !IsStale(DirEntry(name, true, now - MaxAgeMs), now)
    ensures ScreenshotPrefix <= name ==> IsStale(DirEntry(name, true, now - MaxAgeMs - 1), now)
  {
  }

  /** `cleanUpOldUploads`: walks the listing once and unlinks each stale file. Returns
      what remains of the listing and the names removed, in the order removed. */
  method CleanUpOldUploads(files: seq<DirEntry>, now: int) returns (kept: seq<DirEntry>, removed: seq<string>)
    ensures kept == Survivors(files, now)
    ensures removed == Deleted(files, now)
    ensures forall e :: e in kept <==> e in files && !IsStale(e, now)
    ensures forall e :: e in files && IsStale(e, now) ==> e.name in removed
    ensures forall n :: n in removed ==> exists e :: e in files && IsStale(e, now) && e.name == n
    ensures |kept| + |removed| == |files|
  {
    DeletedExactlyStale(files, now);
    kept, removed := [], [];
    for i := 0 to |files|
      invariant kept == Survivors(files[..i], now)
      invariant removed == Deleted(files[..i], now)
    {
      assert files[..i + 1][..i] == files[..i];
      if IsStale(files[i], now) {
        removed := removed + [files[i].name];
      } else {
        kept := kept + [files[i]];
      }
    }
    assert files[..|files|] == files;
  }
}
