/**
  The access control of pages/1_Imagen.py: a record of failed code entries
  that locks input for thirty minutes after five failures, the image quota of
  a code with the per-session usage counter, and the column count of the
  image grid.
*/
module ImagenQuota {
  import opened Wrappers

  /** Failures that lock the input. */
  const MaxFailures: int := 5

  /** Length of the lock, in seconds. */
  const BlockSeconds: int := 30 * 60

  /** The stored failure record: failures so far, and when the lock started. */
  datatype FailInfo = FailInfo(count: int, time: int)

  /** Input is locked: five failures or more, and the lock has not yet run out. */
  predicate Locked(f: FailInfo, now: int) {
    f.count >= MaxFailures && now - f.time < BlockSeconds
  }

  /** The record after the lock check at the top of the page: an expired lock is cleared. */
  function AfterLockCheck(f: FailInfo, now: int): (g: FailInfo)
    ensures Locked(f, now) ==> g == f
    ensures f.count >= MaxFailures && !Locked(f, now) ==> g == FailInfo(0, 0)
    ensures f.count < MaxFailures ==> g == f
  {
    if f.count >= MaxFailures && now - f.time >= BlockSeconds then FailInfo(0, 0) else f
  }

  /** The minutes shown while locked. */
  function LeftMinutes(f: FailInfo, now: int): (m: int)
    requires Locked(f, now)
    ensures m >= 1
    ensures now >= f.time ==> m <= BlockSeconds / 60 + 1
  {
    (BlockSeconds - (now - f.time)) / 60 + 1
  }

  /** A code is valid when its limit is positive or -1 (unlimited). */
  predicate ValidLimit(limit: int) {
    limit > 0 || limit == -1
  }

  /**
    The record after a code is entered: a valid code clears it, an invalid
    one adds a failure and, from the fifth failure on, restarts the lock at
    `now`.
  */
  function AfterCode(f: FailInfo, limit: int, now: int): (g: FailInfo)
    ensures ValidLimit(limit) ==> g == FailInfo(0, 0)
    ensures !ValidLimit(limit) ==> g.count == f.count + 1
    ensures !ValidLimit(limit) ==> g.time == if g.count >= MaxFailures then now else f.time
  {
    if ValidLimit(limit) then FailInfo(0, 0)
    else
      var count := f.count + 1;
      FailInfo(count, if count >= MaxFailures then now else f.time)
  }

  /** The fifth failure in a row locks input for the next thirty minutes. */
  lemma FifthFailureLocks(f: FailInfo, limit: int, now: int, later: int)
    requires f.count == MaxFailures - 1 && !ValidLimit(limit)
    requires now <= later < now + BlockSeconds
    ensures Locked(AfterCode(f, limit, now), later)
  {
  }

  /** Fewer than five failures never lock. */
  lemma FewFailuresNeverLock(f: FailInfo, now: int)
    requires f.count < MaxFailures
    ensures !Locked(f, now) && AfterLockCheck(f, now) == f
  {
  }

  /** A lock runs out thirty minutes after it started, and the record is cleared. */
  lemma LockExpires(f: FailInfo, now: int)
    requires f.count >= MaxFailures && now >= f.time + BlockSeconds
    ensures !Locked(f, now) && AfterLockCheck(f, now) == FailInfo(0, 0)
  {
  }

  /** The lock check never leaves an expired lock behind. */
  lemma LockCheckSettles(f: FailInfo, now: int)
    ensures var g := AfterLockCheck(f, now); g.count >= MaxFailures ==> Locked(g, now)
  {
  }

  /** The generate button: refused for an unregistered code or a used-up quota. */
  datatype Outcome = Unregistered | QuotaUsed | Generated

  function Admit(limit: int, used: int, numImages: int): (o: Outcome)
    ensures o == Unregistered <==> limit == 0
    ensures o == QuotaUsed <==> limit > 0 && used + numImages > limit
  {
    if limit == 0 then Unregistered
    else if limit > 0 && used + numImages > limit then QuotaUsed
    else Generated
  }

  /** A generation that is admitted and completes keeps a positive quota's usage within it. */
  lemma QuotaRespected(limit: int, used: int, numImages: int)
    requires limit > 0 && Admit(limit, used, numImages) == Generated
    ensures used + numImages <= limit
  {
  }

  /** An unlimited code is admitted whatever it has used. */
  lemma UnlimitedAdmitted(used: int, numImages: int)
    ensures Admit(-1, used, numImages) == Generated
  {
  }

  /** The column count of the image grid: 1 for one image, n for 2 or 3, 2 for 4 or more. */
  function GridColumns(n: int): (cols: int)
    requires n >= 1
    ensures 1 <= cols <= n && cols <= 3
    ensures 2 <= n <= 3 ==> cols == n
    ensures n >= 4 ==> cols == 2
  {
    if n == 1 then 1 else if n <= 3 then n else 2
  }

  /**
    The page's state: the stored failure record, the session's usage counter
    and last code, and the images shown so far.
  */
  class ImagenPage {
    var fails: FailInfo
    var usedCount: int
    var lastCode: Option<string>
    var images: seq<string>

    /**
      The lock check at the top of the page: whether input is locked, the
      minutes left when it is, and the record cleared when the lock has run
      out.
    */
    method CheckLock(now: int) returns (blocked: bool, leftMinutes: int)
      modifies this
      ensures blocked == Locked(old(fails), now)
      ensures blocked ==> leftMinutes == LeftMinutes(old(fails), now)
      ensures fails == AfterLockCheck(old(fails), now)
      ensures usedCount == old(usedCount) && lastCode == old(lastCode) && images == old(images)
    {
      blocked, leftMinutes := false, 0;
      if fails.count >= MaxFailures {
        if now - fails.time < BlockSeconds {
          blocked := true;
          leftMinutes := (BlockSeconds - (now - fails.time)) / 60 + 1;
        } else {
          fails := FailInfo(0, 0);
        }
      }
    }

    /**
      Entering a code: the code's limit (0 when unknown, empty or invalid),
      the usage counter reset when the code changes, and the failure record
      updated for a non-empty code.
    */
    method EnterCode(code: string, limits: map<string, int>, now: int) returns (limit: int)
      modifies this
      ensures var configured := if code in limits then limits[code] else 0;
              limit == (if code != "" && ValidLimit(configured) then configured else 0) &&
              fails == (if code == "" then old(fails) else AfterCode(old(fails), configured, now))
      ensures lastCode == Some(code)
      ensures usedCount == if old(lastCode) == Some(code) then old(usedCount) else 0
      ensures images == old(images)
    {
      limit := if code in limits then limits[code] else 0;
      if lastCode != Some(code) {
        usedCount := 0;
        lastCode := Some(code);
      }
      if code != "" {
        if limit > 0 || limit == -1 {
          fails := FailInfo(0, 0);
        } else {
          var count := fails.count + 1;
          fails := FailInfo(count, if count >= MaxFailures then now else fails.time);
          limit := 0;
        }
      } else {
        limit := 0;
      }
    }

    /**
      The generate button: the quota check and the generation of
      `numImages` images. `produced` are the images the service returned, all of them
      unless `failed`; only a complete run with a positive limit is counted.
    */
    method Generate(limit: int, numImages: int, produced: seq<string>, failed: bool) returns (o: Outcome)
      requires !failed ==> |produced| == numImages
      requires failed ==> |produced| < numImages
      modifies this
      ensures o == Admit(limit, old(usedCount), numImages)
      ensures images == old(images) + (if o == Generated then produced else [])
      ensures usedCount == old(usedCount) + (if o == Generated && !failed && limit > 0 then numImages else 0)
      ensures fails == old(fails) && lastCode == old(lastCode)
    {
      o := Admit(limit, usedCount, numImages);
      if o == Generated {
        images := images + produced;
        if !failed && limit > 0 {
          usedCount := usedCount + numImages;
        }
      }
    }

    /**
      The image grid: the images laid out row by row, GridColumns(n) per row;
      `shown` lists the image indices in the order they are placed.
    */
    method LayOut() returns (shown: seq<int>)
      requires images != []
      ensures |shown| == |images|
      ensures forall k :: 0 <= k < |shown| ==> shown[k] == k
    {
      var n := |images|;
      var cols := GridColumns(n);
      shown := [];
      var i := 0;
      while i < n
        invariant 0 <= i && (i < n ==> |shown| == i) && (i >= n ==> |shown| == n)
        invariant forall k :: 0 <= k < |shown| ==> shown[k] == k
        decreases n - i
      {
        var j := 0;
        while j < cols
          invariant 0 <= j <= cols
          invariant |shown| == if i + j < n then i + j else n
          invariant forall k :: 0 <= k < |shown| ==> shown[k] == k
        {
          if i + j < n {
            shown := shown + [i + j];
          }
          j := j + 1;
        }
        i := i + cols;
      }
    }
  }
}
