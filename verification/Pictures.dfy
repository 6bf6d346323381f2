/**
 Profile pictures across the database and object storage: uploads before the transaction,
 asynchronous deletes after it. No user row ever names an object that is gone or about to go.
 */
module Pictures {
  import opened Options
  import opened Database
  import opened Locking
  import opened Sessions
  import opened Users

  ghost predicate Shows(rows: Rows, k: Key, n: Name) {
    IsUser(rows, k) && rows[k].u.picture == Some(n)
  }

  /** The object exists, no delete of it is scheduled, and no other row shows it. */
  ghost predicate Kept(s: State, k: Key, n: Name) {
    Shows(s.rows, k, n) ==> n in s.objects && n !in s.deletes && n in s.names
  }

  ghost predicate OneRow(rows: Rows, k: Key, l: Key, n: Name) {
    Shows(rows, k, n) && Shows(rows, l, n) ==> k == l
  }

  ghost predicate Uploads(s: State, t: TxId, n: Name) {
    t in s.txs && s.txs[t].op.ChangePicture? && s.txs[t].op.name == n
  }

  /** ChangePassword t has read picture n on user row k and may write it back. */
  ghost predicate Recalls(s: State, t: TxId, k: Key, n: Name) {
    t in s.txs && s.txs[t].op.ChangePassword? && k == UserK(s.txs[t].op.user)
    && s.txs[t].snap.Some? && s.txs[t].snap.value.picture == Some(n)
  }

  /** An uploaded object not yet referenced is stored, unscheduled, shown nowhere and recalled nowhere. */
  ghost predicate UploadOk(s: State, t: TxId, n: Name) {
    Uploads(s, t, n) ==>
      && n in s.names && n in s.objects && n !in s.deletes
      && (forall k :: !Shows(s.rows, k, n)) && (forall u, k :: !Recalls(s, u, k, n))
  }

  /** A recalled picture is one of the user's own: no other row shows it or is recalled with it. */
  ghost predicate RecallOk(s: State, t: TxId, k: Key, n: Name) {
    Recalls(s, t, k, n) ==>
      && n in s.names
      && (forall l :: Shows(s.rows, l, n) ==> l == k)
      && (forall u, l :: Recalls(s, u, l, n) ==> l == k)
  }

  ghost predicate PictureInv(s: State) {
    && LockInv(s)
    && (forall k, n :: Kept(s, k, n))
    && (forall k, l, n :: OneRow(s.rows, k, l, n))
    && (forall t, n :: UploadOk(s, t, n))
    && (forall t, k, n :: RecallOk(s, t, k, n))
    && (forall t, u, n :: Uploads(s, t, n) && Uploads(s, u, n) ==> t == u)
    && s.deletes <= s.names
  }

  /** The commit is a ChangePassword that writes picture n back. */
  ghost predicate WritesBack(s: State, a: Action, k: Key, n: Name) {
    a.Commit? && Recalls(s, a.t, k, n)
  }

  /** A picture written back by a password change is stored and no delete of it is pending. */
  ghost predicate Safe(s: State, a: Action) {
    forall k, n :: WritesBack(s, a, k, n) ==> n in s.objects && n !in s.deletes
  }

  /** Where a shown picture comes from: it was there before, this commit uploaded it, or it is written back. */
  lemma ShownStep(p: Params, s: State, a: Action, k: Key, n: Name)
    requires LockInv(s) && Enabled(p, s, a) && Shows(Apply(p, s, a).rows, k, n)
    ensures || Shows(s.rows, k, n)
            || (a.Commit? && Uploads(s, a.t, n) && s.txs[a.t].target == Some(k))
            || WritesBack(s, a, k, n)
  {
    UserStep(p, s, a, k);
    if a.Commit? { assert Current(s, a.t); }
  }

  /** The picture a commit schedules for deletion is no longer on its row. */
  lemma OrphanHidden(p: Params, s: State, a: Action, n: Name)
    requires PictureInv(s) && Enabled(p, s, a) && a.Commit? && n in Orphaned(s.txs[a.t])
    ensures Shows(s.rows, s.txs[a.t].target.value, n) && !Shows(Apply(p, s, a).rows, s.txs[a.t].target.value, n)
  {
    var tx := s.txs[a.t];
    assert Current(s, a.t) && Shows(s.rows, tx.target.value, n);
    assert tx.op.ChangePicture? ==> UploadOk(s, a.t, tx.op.name);
    assert tx.target.value in Writes(s.rows, tx, a.at);
  }

  lemma StillShown(p: Params, s: State, a: Action, k: Key, n: Name)
    requires PictureInv(s) && Enabled(p, s, a)
    requires Shows(s.rows, k, n) && Shows(Apply(p, s, a).rows, k, n)
    ensures n in Apply(p, s, a).objects && n !in Apply(p, s, a).deletes
  {
    assert Kept(s, k, n);
    if a.Commit? {
      assert Current(s, a.t);
      var tx := s.txs[a.t];
      assert tx.target.Some? ==> OneRow(s.rows, k, tx.target.value, n);
      if n in Orphaned(tx) { OrphanHidden(p, s, a, n); }
    } else if a.Abort? {
      assert s.txs[a.t].op.ChangePicture? ==> UploadOk(s, a.t, s.txs[a.t].op.name);
    }
  }

  lemma NewlyShown(p: Params, s: State, a: Action, k: Key, n: Name)
    requires PictureInv(s) && Enabled(p, s, a) && a.Commit? && Uploads(s, a.t, n) && s.txs[a.t].target == Some(k)
    ensures Kept(Apply(p, s, a), k, n)
  {
    assert UploadOk(s, a.t, n);
    assert Current(s, a.t);
    if Target(s.txs[a.t]).u.picture.Some? {
      assert Shows(s.rows, s.txs[a.t].target.value, Target(s.txs[a.t]).u.picture.value);
    }
  }

  lemma KeptStep(p: Params, s: State, a: Action, k: Key, n: Name)
    requires PictureInv(s) && Enabled(p, s, a) && Safe(s, a)
    ensures Kept(Apply(p, s, a), k, n)
  {
    if Shows(Apply(p, s, a).rows, k, n) {
      ShownStep(p, s, a, k, n);
      if Shows(s.rows, k, n) {
        assert Kept(s, k, n);
        StillShown(p, s, a, k, n);
      } else if WritesBack(s, a, k, n) {
        assert RecallOk(s, a.t, k, n);
      } else {
        NewlyShown(p, s, a, k, n);
      }
    }
  }

  lemma OneRowStep(p: Params, s: State, a: Action, k: Key, l: Key, n: Name)
    requires PictureInv(s) && Enabled(p, s, a)
    ensures OneRow(Apply(p, s, a).rows, k, l, n)
  {
    if Shows(Apply(p, s, a).rows, k, n) && Shows(Apply(p, s, a).rows, l, n) {
      ShownStep(p, s, a, k, n);
      ShownStep(p, s, a, l, n);
      assert OneRow(s.rows, k, l, n);
      if a.Commit? {
        assert UploadOk(s, a.t, n);
        assert RecallOk(s, a.t, k, n) && RecallOk(s, a.t, l, n);
      }
    }
  }

  /** What is recalled after a step was recalled before, or is on the row just read. */
  lemma RecallFrom(p: Params, s: State, a: Action, t: TxId, k: Key, n: Name)
    requires LockInv(s) && Enabled(p, s, a) && Recalls(Apply(p, s, a), t, k, n)
    ensures Recalls(s, t, k, n) || (a.Begin? && a.t == t && Shows(s.rows, k, n))
  {
  }

  lemma UploadStep(p: Params, s: State, a: Action, t: TxId, n: Name)
    requires PictureInv(s) && Enabled(p, s, a)
    ensures UploadOk(Apply(p, s, a), t, n)
  {
    var s' := Apply(p, s, a);
    if Uploads(s', t, n) {
      assert Uploads(s, t, n) || n !in s.names;
      assert UploadOk(s, t, n);
      forall k ensures !Shows(s'.rows, k, n) { UploadHidden(p, s, a, t, k, n); }
      forall u, k ensures !Recalls(s', u, k, n) { UploadForgotten(p, s, a, t, u, k, n); }
      if a.Commit? || a.Abort? {
        assert Current(s, a.t);
        NotScheduled(s, a.t, t, n);
      }
    }
  }

  lemma UploadHidden(p: Params, s: State, a: Action, t: TxId, k: Key, n: Name)
    requires PictureInv(s) && Enabled(p, s, a) && Uploads(Apply(p, s, a), t, n)
    ensures !Shows(Apply(p, s, a).rows, k, n)
  {
    assert Uploads(s, t, n) || n !in s.names;
    assert UploadOk(s, t, n) && Kept(s, k, n);
    assert a.Commit? ==> RecallOk(s, a.t, k, n);
    if Shows(Apply(p, s, a).rows, k, n) { ShownStep(p, s, a, k, n); }
  }

  lemma UploadForgotten(p: Params, s: State, a: Action, t: TxId, u: TxId, k: Key, n: Name)
    requires PictureInv(s) && Enabled(p, s, a) && Uploads(Apply(p, s, a), t, n)
    ensures !Recalls(Apply(p, s, a), u, k, n)
  {
    assert Uploads(s, t, n) || n !in s.names;
    assert UploadOk(s, t, n) && Kept(s, k, n) && RecallOk(s, u, k, n);
    if Recalls(Apply(p, s, a), u, k, n) { RecallFrom(p, s, a, u, k, n); }
  }

  /** Neither a replaced picture nor another transaction's upload is the name n being uploaded. */
  lemma NotScheduled(s: State, t: TxId, u: TxId, n: Name)
    requires PictureInv(s) && t in s.txs && t != u && Uploads(s, u, n)
    ensures n !in Orphaned(s.txs[t]) && !Uploads(s, t, n)
  {
    assert Current(s, t) && UploadOk(s, u, n);
    assert n in Orphaned(s.txs[t]) ==> Shows(s.rows, s.txs[t].target.value, n);
  }

  lemma RecallStep(p: Params, s: State, a: Action, t: TxId, k: Key, n: Name)
    requires PictureInv(s) && Enabled(p, s, a)
    ensures RecallOk(Apply(p, s, a), t, k, n)
  {
    var s' := Apply(p, s, a);
    if Recalls(s', t, k, n) {
      RecallFrom(p, s, a, t, k, n);
      assert RecallOk(s, t, k, n) && Kept(s, k, n);
      forall l | Shows(s'.rows, l, n) ensures l == k { RecalledRow(p, s, a, t, k, l, n); }
      forall u, l | Recalls(s', u, l, n) ensures l == k { RecalledBy(p, s, a, t, k, u, l, n); }
    }
  }

  lemma RecalledRow(p: Params, s: State, a: Action, t: TxId, k: Key, l: Key, n: Name)
    requires PictureInv(s) && Enabled(p, s, a) && Recalls(Apply(p, s, a), t, k, n) && Shows(Apply(p, s, a).rows, l, n)
    ensures l == k
  {
    RecallFrom(p, s, a, t, k, n);
    ShownStep(p, s, a, l, n);
    assert RecallOk(s, t, k, n) && OneRow(s.rows, k, l, n);
    if a.Commit? { assert UploadOk(s, a.t, n) && RecallOk(s, a.t, l, n); }
  }

  lemma RecalledBy(p: Params, s: State, a: Action, t: TxId, k: Key, u: TxId, l: Key, n: Name)
    requires PictureInv(s) && Enabled(p, s, a) && Recalls(Apply(p, s, a), t, k, n) && Recalls(Apply(p, s, a), u, l, n)
    ensures l == k
  {
    RecallFrom(p, s, a, t, k, n);
    RecallFrom(p, s, a, u, l, n);
    assert RecallOk(s, t, k, n) && RecallOk(s, u, l, n) && OneRow(s.rows, k, l, n);
  }

  lemma OwnUploadStep(p: Params, s: State, a: Action, t: TxId, u: TxId, n: Name)
    requires PictureInv(s) && Enabled(p, s, a)
    requires Uploads(Apply(p, s, a), t, n) && Uploads(Apply(p, s, a), u, n)
    ensures t == u
  {
    assert UploadOk(s, t, n) && UploadOk(s, u, n);
    assert (Uploads(s, t, n) || n !in s.names) && (Uploads(s, u, n) || n !in s.names);
  }

  lemma DeletesStep(p: Params, s: State, a: Action)
    requires PictureInv(s) && Enabled(p, s, a)
    ensures Apply(p, s, a).deletes <= Apply(p, s, a).names
  {
    if a.Commit? {
      assert Current(s, a.t);
      forall n | n in Orphaned(s.txs[a.t]) ensures n in s.names {
        assert Kept(s, s.txs[a.t].target.value, n);
      }
    } else if a.Abort? {
      assert s.txs[a.t].op.ChangePicture? ==> UploadOk(s, a.t, s.txs[a.t].op.name);
    }
  }

  lemma PictureStep(p: Params, s: State, a: Action)
    requires PictureInv(s) && Enabled(p, s, a) && Safe(s, a)
    ensures PictureInv(Apply(p, s, a))
  {
    var s' := Apply(p, s, a);
    LockStep(p, s, a);
    DeletesStep(p, s, a);
    forall k, n ensures Kept(s', k, n) { KeptStep(p, s, a, k, n); }
    forall k, l, n ensures OneRow(s'.rows, k, l, n) { OneRowStep(p, s, a, k, l, n); }
    forall t, n ensures UploadOk(s', t, n) { UploadStep(p, s, a, t, n); }
    forall t, k, n ensures RecallOk(s', t, k, n) { RecallStep(p, s, a, t, k, n); }
    forall t, u, n | Uploads(s', t, n) && Uploads(s', u, n) ensures t == u { OwnUploadStep(p, s, a, t, u, n); }
  }

  // ------------------------------------------------------------ the exact condition

  /** Every picture on a user row names a stored object that no pending delete will take away. */
  ghost predicate NoneDangles(s: State) {
    forall k, n :: Shows(s.rows, k, n) ==> n in s.objects && n !in s.deletes
  }

  ghost predicate NeverDangles(p: Params, s: State, acts: seq<Action>)
    requires Run(p, s, acts)
    decreases |acts|
  {
    NoneDangles(s) && (acts == [] || NeverDangles(p, Apply(p, s, acts[0]), acts[1..]))
  }

  /** No password change of the run writes back a picture that is gone or about to go. */
  ghost predicate SafeRun(p: Params, s: State, acts: seq<Action>)
    requires Run(p, s, acts)
    decreases |acts|
  {
    acts == [] || (Safe(s, acts[0]) && SafeRun(p, Apply(p, s, acts[0]), acts[1..]))
  }

  /** A commit that writes back a picture shows it, and deletes and schedules nothing. */
  lemma WrittenBack(p: Params, s: State, a: Action, k: Key, n: Name)
    requires LockInv(s) && Enabled(p, s, a) && WritesBack(s, a, k, n)
    ensures var s' := Apply(p, s, a); Shows(s'.rows, k, n) && s'.objects == s.objects && s'.deletes == s.deletes
  {
    assert k in Writes(s.rows, s.txs[a.t], a.at);
  }

  lemma UnsafeDangles(p: Params, s: State, a: Action)
    requires LockInv(s) && Enabled(p, s, a) && NoneDangles(Apply(p, s, a))
    ensures Safe(s, a)
  {
    forall k, n | WritesBack(s, a, k, n) ensures n in s.objects && n !in s.deletes {
      WrittenBack(p, s, a, k, n);
    }
  }

  lemma {:induction false} PictureRun(p: Params, s: State, acts: seq<Action>)
    requires PictureInv(s) && Run(p, s, acts)
    ensures NeverDangles(p, s, acts) <==> SafeRun(p, s, acts)
    decreases |acts|
  {
    assert NoneDangles(s) by {
      forall k, n | Shows(s.rows, k, n) ensures n in s.objects && n !in s.deletes { assert Kept(s, k, n); }
    }
    if acts != [] {
      var s' := Apply(p, s, acts[0]);
      if Safe(s, acts[0]) {
        PictureStep(p, s, acts[0]);
        PictureRun(p, s', acts[1..]);
      } else if NeverDangles(p, s', acts[1..]) {
        UnsafeDangles(p, s, acts[0]);
      }
    }
  }

  /**
   Over every interleaving of uploads, swaps, deletions, profile updates, password changes and
   resets, and asynchronous deletes: no user row ever names an object that is gone or about to go
   if and only if no password change writes back a picture that is gone or about to go.
   */
  lemma NeverDanglesExactly(p: Params, start: Time, acts: seq<Action>)
    requires Run(p, Init(start), acts)
    ensures NeverDangles(p, Init(start), acts) <==> SafeRun(p, Init(start), acts)
  {
    PictureRun(p, Init(start), acts);
  }

  // ------------------------------------------------------------ undisturbed password changes

  /** A picture change commits between the read and the commit of a password change of the same user. */
  ghost predicate Intervenes(s: State, a: Action) {
    && a.Commit? && a.t in s.txs && (s.txs[a.t].op.ChangePicture? || s.txs[a.t].op.DeletePicture?)
    && exists t :: t in s.txs && s.txs[t].op.ChangePassword? && s.txs[t].op.user == s.txs[a.t].op.user
  }

  ghost predicate QuietRun(p: Params, s: State, acts: seq<Action>)
    requires Run(p, s, acts)
    decreases |acts|
  {
    acts == [] || (!Intervenes(s, acts[0]) && QuietRun(p, Apply(p, s, acts[0]), acts[1..]))
  }

  /** The row still shows what the password change read. */
  ghost predicate RecallCurrent(s: State, t: TxId) {
    t in s.txs && s.txs[t].op.ChangePassword? ==>
      && s.txs[t].snap.Some? && HasUser(s.rows, s.txs[t].op.user)
      && s.rows[UserK(s.txs[t].op.user)].u.picture == s.txs[t].snap.value.picture
  }

  lemma RecallCurrentStep(p: Params, s: State, a: Action, t: TxId)
    requires LockInv(s) && Enabled(p, s, a) && !Intervenes(s, a) && (forall u :: RecallCurrent(s, u))
    ensures RecallCurrent(Apply(p, s, a), t)
  {
    var s' := Apply(p, s, a);
    if t in s'.txs && s'.txs[t].op.ChangePassword? {
      assert RecallCurrent(s, t);
      UserStep(p, s, a, UserK(s'.txs[t].op.user));
      if a.Commit? { assert Current(s, a.t) && RecallCurrent(s, a.t); }
    }
  }

  lemma {:induction false} QuietIsSafe(p: Params, s: State, acts: seq<Action>)
    requires PictureInv(s) && (forall t :: RecallCurrent(s, t)) && Run(p, s, acts) && QuietRun(p, s, acts)
    ensures SafeRun(p, s, acts)
    decreases |acts|
  {
    if acts != [] {
      var a, s' := acts[0], Apply(p, s, acts[0]);
      forall k, n | WritesBack(s, a, k, n) ensures n in s.objects && n !in s.deletes {
        assert RecallCurrent(s, a.t) && Kept(s, k, n);
      }
      PictureStep(p, s, a);
      forall t ensures RecallCurrent(s', t) { RecallCurrentStep(p, s, a, t); }
      QuietIsSafe(p, s', acts[1..]);
    }
  }

  /** No dangling picture, in any state, when no picture change commits between a password change's
      read and its commit. */
  lemma NoDanglingPicture(p: Params, start: Time, acts: seq<Action>)
    requires Run(p, Init(start), acts) && QuietRun(p, Init(start), acts)
    ensures NeverDangles(p, Init(start), acts)
  {
    QuietIsSafe(p, Init(start), acts);
    NeverDanglesExactly(p, start, acts);
  }

  /** The condition is needed: whenever ChangePassword read a picture whose cleanup has been scheduled
      since, committing it and letting the cleanup run leaves the row naming a missing object. */
  lemma StaleWriteDangles(p: Params, s: State, a: Action, q: Name)
    requires LockInv(s) && Enabled(p, s, a) && a.Commit? && s.txs[a.t].op.ChangePassword?
    requires s.txs[a.t].snap.value.picture == Some(q) && q in s.deletes
    ensures var s1 := Apply(p, s, a);
            && Enabled(p, s1, DeleteObject(q, true))
            && var s2 := Apply(p, s1, DeleteObject(q, true));
            Shows(s2.rows, s.txs[a.t].target.value, q) && q !in s2.objects
  {
  }

  // ------------------------------------------------------------ nothing is left behind

  ghost predicate Shown(rows: Rows, n: Name) {
    exists k :: Shows(rows, k, n)
  }

  ghost predicate Uploading(s: State, n: Name) {
    exists t :: Uploads(s, t, n)
  }

  /** A stored object is on a row, on its way to one, or about to be deleted. */
  ghost predicate Accounted(s: State, n: Name) {
    n in s.objects ==> n in s.deletes || Shown(s.rows, n) || Uploading(s, n)
  }

  /** The commit is a password change that writes over picture n, which it had not read. */
  ghost predicate Overwrites(s: State, a: Action, k: Key, n: Name) {
    && a.Commit? && a.t in s.txs && s.txs[a.t].op.ChangePassword? && k == UserK(s.txs[a.t].op.user)
    && Shows(s.rows, k, n) && s.txs[a.t].snap.Some? && s.txs[a.t].snap.value.picture != Some(n)
  }

  /** An asynchronous delete of a stored object fails. */
  ghost predicate DeleteFails(s: State, a: Action, n: Name) {
    a == DeleteObject(n, false) && n in s.objects
  }

  ghost predicate Tidy(s: State, a: Action) {
    (forall k, n :: !Overwrites(s, a, k, n)) && (forall n :: !DeleteFails(s, a, n))
  }

  /** A picture leaves its row only to be deleted. */
  lemma TakenDown(p: Params, s: State, a: Action, k: Key, n: Name)
    requires LockInv(s) && Enabled(p, s, a) && Tidy(s, a) && Shows(s.rows, k, n)
    ensures Shows(Apply(p, s, a).rows, k, n) || n in Apply(p, s, a).deletes
  {
    UserStep(p, s, a, k);
    if a.Commit? {
      assert Current(s, a.t);
      assert !Overwrites(s, a, k, n);
    }
  }

  /** An upload ends on its row, or is deleted. */
  lemma UploadEnds(p: Params, s: State, a: Action, t: TxId, n: Name)
    requires LockInv(s) && Enabled(p, s, a) && Uploads(s, t, n)
    ensures var s' := Apply(p, s, a);
            Uploads(s', t, n) || n in s'.deletes || (s.txs[t].target.Some? && Shows(s'.rows, s.txs[t].target.value, n))
  {
    if a.Commit? && a.t == t {
      assert Current(s, t);
      assert s.txs[t].target.value in Writes(s.rows, s.txs[t], a.at);
    }
  }

  lemma AccountedStep(p: Params, s: State, a: Action, n: Name)
    requires PictureInv(s) && Enabled(p, s, a) && Tidy(s, a) && Accounted(s, n)
    ensures Accounted(Apply(p, s, a), n)
  {
    var s' := Apply(p, s, a);
    if n in s'.objects {
      if n !in s.objects {
        assert Uploads(s', a.t, n);
      } else if n in s.deletes {
        assert !DeleteFails(s, a, n);
      } else if k :| Shows(s.rows, k, n) {
        TakenDown(p, s, a, k, n);
      } else {
        var t :| Uploads(s, t, n);
        UploadEnds(p, s, a, t, n);
      }
    }
  }

  /** A step that is not tidy leaves an object behind. */
  lemma UntidyLeaves(p: Params, s: State, a: Action)
    requires PictureInv(s) && Enabled(p, s, a) && (forall n :: Accounted(Apply(p, s, a), n))
    ensures Tidy(s, a)
  {
    var s' := Apply(p, s, a);
    forall n ensures !DeleteFails(s, a, n) {
      if DeleteFails(s, a, n) { FailedLeaves(p, s, a, n); }
    }
    forall k, n ensures !Overwrites(s, a, k, n) {
      if Overwrites(s, a, k, n) { OverwrittenLeaves(p, s, a, k, n); }
    }
  }

  lemma FailedLeaves(p: Params, s: State, a: Action, n: Name)
    requires PictureInv(s) && Enabled(p, s, a) && DeleteFails(s, a, n)
    ensures !Accounted(Apply(p, s, a), n)
  {
    var s' := Apply(p, s, a);
    assert s'.rows == s.rows && s'.txs == s.txs;
    forall k ensures !Shows(s'.rows, k, n) { assert Kept(s, k, n); }
    forall t ensures !Uploads(s', t, n) { assert UploadOk(s, t, n); }
  }

  lemma OverwrittenLeaves(p: Params, s: State, a: Action, k: Key, n: Name)
    requires PictureInv(s) && Enabled(p, s, a) && Overwrites(s, a, k, n)
    ensures !Accounted(Apply(p, s, a), n)
  {
    var s' := Apply(p, s, a);
    assert Kept(s, k, n) && Current(s, a.t);
    assert k in Writes(s.rows, s.txs[a.t], a.at);
    forall l ensures !Shows(s'.rows, l, n) {
      assert OneRow(s.rows, k, l, n) && !WritesBack(s, a, l, n);
      if Shows(s'.rows, l, n) { ShownStep(p, s, a, l, n); }
    }
    forall t ensures !Uploads(s', t, n) { assert UploadOk(s, t, n); }
  }

  ghost predicate NeverLeaks(p: Params, s: State, acts: seq<Action>)
    requires Run(p, s, acts)
    decreases |acts|
  {
    (forall n :: Accounted(s, n)) && (acts == [] || NeverLeaks(p, Apply(p, s, acts[0]), acts[1..]))
  }

  ghost predicate TidyRun(p: Params, s: State, acts: seq<Action>)
    requires Run(p, s, acts)
    decreases |acts|
  {
    acts == [] || (Tidy(s, acts[0]) && TidyRun(p, Apply(p, s, acts[0]), acts[1..]))
  }

  lemma {:induction false} LeakRun(p: Params, s: State, acts: seq<Action>)
    requires PictureInv(s) && (forall n :: Accounted(s, n)) && Run(p, s, acts) && SafeRun(p, s, acts)
    ensures NeverLeaks(p, s, acts) <==> TidyRun(p, s, acts)
    decreases |acts|
  {
    if acts != [] {
      var a, s' := acts[0], Apply(p, s, acts[0]);
      PictureStep(p, s, a);
      if Tidy(s, a) {
        forall n ensures Accounted(s', n) { AccountedStep(p, s, a, n); }
        LeakRun(p, s', acts[1..]);
      } else if NeverLeaks(p, s', acts[1..]) {
        UntidyLeaves(p, s, a);
      }
    }
  }

  /**
   Nothing is left behind: over every run in which no row dangles, every stored object is, in every
   state, on a row, on its way to one, or about to be deleted, if and only if no delete of a stored
   object fails and no password change writes over a picture it had not read.
   */
  lemma NeverLeaksExactly(p: Params, start: Time, acts: seq<Action>)
    requires Run(p, Init(start), acts) && NeverDangles(p, Init(start), acts)
    ensures NeverLeaks(p, Init(start), acts) <==> TidyRun(p, Init(start), acts)
  {
    NeverDanglesExactly(p, start, acts);
    LeakRun(p, Init(start), acts);
  }
}
