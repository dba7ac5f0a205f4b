/** The purge of one account: the audit row, the best-effort cascade over
    subscriptions, wallet and identity provider, and the final status flip. */
module AccountPurge {
  import opened Prelude
  import Subscriptions

  datatype AuditStatus = Purging | Completed | Failed
  datatype Audit = Audit(account: int, initiatedBy: int, status: AuditStatus)

  datatype Sub = Sub(product: int, status: Subscriptions.Status) {
    predicate Paid() { status.Active? || status.Grace? }
    predicate Live() { Subscriptions.IsLive(status) }
  }

  datatype Wallet = Wallet(balance: int, frozen: int)

  datatype Attempt = ListSubs | CancelSub(product: int) | ReadBalance | Debit(amount: int) | Deactivate

  /** How the stores and services answer; cancel(i) is the write for the i-th listed subscription. */
  datatype Faults = Faults(
    beginLookup: bool, insert: WriteFault,
    cascadeLookup: bool, list: bool, cancel: nat -> WriteFault,
    balance: bool, debit: WriteFault, zitadel: WriteFault,
    flipLookup: bool, flip: WriteFault, mark: WriteFault)

  datatype Outcome = Ok | UnsupportedOp | MissingTarget | BeginFailed | InFlight | CascadeFailed(first: Attempt) | LookupFailed | FinishFailed

  /** The partial unique index on live subscriptions. */
  ghost predicate OneLivePerProduct(subs: seq<Sub>) {
    forall i, j :: 0 <= i < j < |subs| && subs[i].Live() && subs[j].Live() ==> subs[i].product != subs[j].product
  }

  /** The partial unique index on audit rows. */
  ghost predicate OnePurging(audits: seq<Audit>) {
    forall i, j :: 0 <= i < j < |audits| && audits[i].status.Purging? && audits[j].status.Purging? ==>
      audits[i].account != audits[j].account
  }

  // What is attempted in each domain, as a function of that domain alone.

  function Cancels(subs: seq<Sub>): seq<Attempt> {
    if subs == [] then []
    else Cancels(subs[..|subs| - 1]) + if subs[|subs| - 1].Paid() then [CancelSub(subs[|subs| - 1].product)] else []
  }

  function SubAttempts(wired: bool, subs: seq<Sub>, listFails: bool): seq<Attempt> {
    if !wired then [] else if listFails then [ListSubs] else [ListSubs] + Cancels(subs)
  }

  function WalletAttempts(wired: bool, w: Option<Wallet>, balanceFails: bool): seq<Attempt> {
    if !wired then []
    else if balanceFails || w.None? || w.value.balance <= 0 then [ReadBalance]
    else [ReadBalance, Debit(w.value.balance)]
  }

  function ZitadelAttempts(wired: bool, hasSub: bool): seq<Attempt> {
    if wired && hasSub then [Deactivate] else []
  }

  /** A positive balance that the purge debit cannot take: partly frozen, or the
      account was already debited by an earlier purge attempt. */
  predicate Undebitable(w: Option<Wallet>, purgeDebited: bool) {
    w.Some? && w.value.balance > 0 && (w.value.frozen > 0 || purgeDebited)
  }

  // What fails in each domain, and what the domain is left as.

  function CancelFailures(subs: seq<Sub>, cancel: nat -> WriteFault): seq<Attempt> {
    if subs == [] then []
    else
      var i := |subs| - 1;
      CancelFailures(subs[..i], cancel) + if subs[i].Paid() && cancel(i).Reported() then [CancelSub(subs[i].product)] else []
  }

  function SubFailures(wired: bool, subs: seq<Sub>, f: Faults): seq<Attempt> {
    if !wired then [] else if f.list then [ListSubs] else CancelFailures(subs, f.cancel)
  }

  function WalletFailures(wired: bool, w: Option<Wallet>, purgeDebited: bool, f: Faults): seq<Attempt> {
    if !wired then []
    else if f.balance then [ReadBalance]
    else if w.Some? && w.value.balance > 0 && (Undebitable(w, purgeDebited) || f.debit.Reported()) then [Debit(w.value.balance)]
    else []
  }

  function ZitadelFailures(wired: bool, hasSub: bool, f: Faults): seq<Attempt> {
    if wired && hasSub && f.zitadel.Reported() then [Deactivate] else []
  }

  function SubAfter(wired: bool, s: Sub, i: nat, f: Faults): Sub {
    if wired && !f.list && s.Paid() && f.cancel(i).Applied() then Sub(s.product, Subscriptions.Cancelled) else s
  }

  function WalletAfter(wired: bool, w: Option<Wallet>, purgeDebited: bool, f: Faults): Option<Wallet> {
    if Debited(wired, w, purgeDebited, f) then Some(w.value.(balance := 0)) else w
  }

  predicate Debited(wired: bool, w: Option<Wallet>, purgeDebited: bool, f: Faults) {
    wired && !f.balance && w.Some? && w.value.balance > 0 && !Undebitable(w, purgeDebited) && f.debit.Applied()
  }

  /** No call of the subscription step errs. */
  predicate SubsGoThrough(wired: bool, subs: seq<Sub>, f: Faults) {
    wired ==> !f.list && forall i :: 0 <= i < |subs| && subs[i].Paid() ==> f.cancel(i).NoFault?
  }

  /** The balance can be read, and is not positive or can be debited. */
  predicate WalletGoesThrough(wired: bool, w: Option<Wallet>, purgeDebited: bool, f: Faults) {
    wired ==> !f.balance && (w.Some? && w.value.balance > 0 ==> !Undebitable(w, purgeDebited) && f.debit.NoFault?)
  }

  predicate IdentityGoesThrough(wired: bool, hasSub: bool, f: Faults) { wired && hasSub ==> f.zitadel.NoFault? }

  lemma CancelsStep(subs: seq<Sub>, cancel: nat -> WriteFault, k: nat)
    requires k < |subs|
    ensures Cancels(subs[..k + 1]) == Cancels(subs[..k]) + if subs[k].Paid() then [CancelSub(subs[k].product)] else []
    ensures CancelFailures(subs[..k + 1], cancel) ==
            CancelFailures(subs[..k], cancel) + if subs[k].Paid() && cancel(k).Reported() then [CancelSub(subs[k].product)] else []
  {
    assert subs[..k + 1][..k] == subs[..k];
  }

  lemma {:induction false} NoCancelFailsIff(subs: seq<Sub>, cancel: nat -> WriteFault)
    ensures CancelFailures(subs, cancel) == [] <==> forall i :: 0 <= i < |subs| && subs[i].Paid() ==> cancel(i).NoFault?
  {
    if subs != [] {
      var n := |subs| - 1;
      NoCancelFailsIff(subs[..n], cancel);
      if forall i :: 0 <= i < |subs[..n]| && subs[..n][i].Paid() ==> cancel(i).NoFault? {
        assert forall i :: 0 <= i < n && subs[i].Paid() ==> subs[..n][i].Paid();
      }
    }
  }

  /** Each domain has no failure exactly when its calls go through. */
  lemma NothingFailsIff(subsWired: bool, walletWired: bool, zitadelWired: bool, hasSub: bool,
                        subs: seq<Sub>, w: Option<Wallet>, purgeDebited: bool, f: Faults)
    ensures SubFailures(subsWired, subs, f) + WalletFailures(walletWired, w, purgeDebited, f) + ZitadelFailures(zitadelWired, hasSub, f) == []
      <==> SubsGoThrough(subsWired, subs, f) && WalletGoesThrough(walletWired, w, purgeDebited, f)
           && IdentityGoesThrough(zitadelWired, hasSub, f)
  {
    NoCancelFailsIff(subs, f.cancel);
  }

  lemma AppendThree(log: seq<Attempt>, a: seq<Attempt>, b: seq<Attempt>, c: seq<Attempt>)
    ensures log + a + b + c == log + (a + b + c)
  {
  }

  /** The cancellations attempted are those of the active and grace subscriptions. */
  lemma {:induction false} CancelsMean(subs: seq<Sub>, product: int)
    ensures CancelSub(product) in Cancels(subs) <==> exists i :: 0 <= i < |subs| && subs[i].Paid() && subs[i].product == product
  {
    if subs != [] {
      var front, last := subs[..|subs| - 1], subs[|subs| - 1];
      CancelsMean(front, product);
      assert forall i :: 0 <= i < |front| ==> front[i] == subs[i];
      if last.Paid() && last.product == product {
        assert subs[|subs| - 1].Paid();
        assert [CancelSub(last.product)][0] == CancelSub(product);
      }
    }
  }

  class Account {
    const id: int
    const found: bool
    const hasZitadelSub: bool
    const subsWired: bool
    const walletWired: bool
    const zitadelWired: bool
    const faults: Faults

    var deleted: bool
    var subs: seq<Sub>
    var wallet: Option<Wallet>
    var purgeDebited: bool        // the ledger already holds a purge debit for this account
    var zitadelActive: bool
    var audits: seq<Audit>
    var attempts: seq<Attempt>
    var failures: seq<Attempt>

    ghost predicate Valid()
      reads this
    {
      id > 0 && OneLivePerProduct(subs) && OnePurging(audits)
    }

    constructor (id: int, found: bool, hasZitadelSub: bool, subsWired: bool, walletWired: bool, zitadelWired: bool,
                 faults: Faults, subs: seq<Sub>, wallet: Option<Wallet>)
      requires id > 0 && OneLivePerProduct(subs)
      ensures Valid() && !deleted && this.subs == subs && this.wallet == wallet && zitadelActive && !purgeDebited
      ensures audits == [] && attempts == [] && failures == []
    {
      this.id, this.found, this.hasZitadelSub := id, found, hasZitadelSub;
      this.subsWired, this.walletWired, this.zitadelWired, this.faults := subsWired, walletWired, zitadelWired, faults;
      this.deleted, this.subs, this.wallet, this.purgeDebited, this.zitadelActive := false, subs, wallet, false, true;
      this.audits, this.attempts, this.failures := [], [], [];
    }

    method Note(a: Attempt)
      modifies this`attempts
      ensures attempts == old(attempts) + [a]
    {
      attempts := attempts + [a];
    }

    /** captureErr: every failure is logged, the first is returned in the end. */
    method CaptureErr(a: Attempt, failed: bool)
      modifies this`failures
      ensures failures == old(failures) + if failed then [a] else []
    {
      if failed { failures := failures + [a]; }
    }

    /** SubscriptionService.Cancel: the live subscription of the product ends. */
    method CancelSubscription(product: int, fault: WriteFault) returns (failed: bool)
      requires OneLivePerProduct(subs)
      modifies this`subs
      ensures |subs| == |old(subs)|
      ensures forall i :: 0 <= i < |subs| ==>
                subs[i] == if fault.Applied() && old(subs)[i].Live() && old(subs)[i].product == product
                           then Sub(product, Subscriptions.Cancelled) else old(subs)[i]
      ensures failed <==> fault.Reported() || forall i :: 0 <= i < |subs| ==> !(old(subs)[i].Live() && old(subs)[i].product == product)
    {
      for i := 0 to |subs|
        invariant subs == old(subs)
        invariant forall j :: 0 <= j < i ==> !(subs[j].Live() && subs[j].product == product)
      {
        if subs[i].Live() && subs[i].product == product {
          if fault.Applied() { subs := subs[i := Sub(product, Subscriptions.Cancelled)]; }
          return fault.Reported();
        }
      }
      return true;
    }

    /** The loop's body for the k-th subscription, an active or grace one. */
    method CancelListed(k: nat)
      requires OneLivePerProduct(subs) && k < |subs| && subs[k].Paid()
      modifies this`subs, this`attempts, this`failures
      ensures attempts == old(attempts) + [CancelSub(old(subs)[k].product)]
      ensures failures == old(failures) + if faults.cancel(k).Reported() then [CancelSub(old(subs)[k].product)] else []
      ensures OneLivePerProduct(subs)
      ensures subs == if faults.cancel(k).Applied()
                      then old(subs)[k := Sub(old(subs)[k].product, Subscriptions.Cancelled)] else old(subs)
    {
      var product := subs[k].product;
      assert subs[k].Live();
      Note(CancelSub(product));
      var failed := CancelSubscription(product, faults.cancel(k));
      CaptureErr(CancelSub(product), failed);
    }

    method CancelSubscriptions()
      requires OneLivePerProduct(subs)
      modifies this`subs, this`attempts, this`failures
      ensures OneLivePerProduct(subs) && |subs| == |old(subs)|
      ensures attempts == old(attempts) + SubAttempts(subsWired, old(subs), faults.list)
      ensures failures == old(failures) + SubFailures(subsWired, old(subs), faults)
      ensures forall i :: 0 <= i < |subs| ==> subs[i] == SubAfter(subsWired, old(subs)[i], i, faults)
    {
      if !subsWired { return; }
      Note(ListSubs);
      if faults.list {
        CaptureErr(ListSubs, true);
        return;
      }
      var all := subs;
      ghost var noted := attempts;
      for k := 0 to |all|
        invariant |subs| == |all| && all == old(subs) && OneLivePerProduct(subs)
        invariant attempts == noted + Cancels(all[..k])
        invariant failures == old(failures) + CancelFailures(all[..k], faults.cancel)
        invariant forall i :: 0 <= i < |subs| ==> subs[i] == if i < k then SubAfter(true, all[i], i, faults) else all[i]
      {
        CancelsStep(all, faults.cancel, k);
        if all[k].Paid() { CancelListed(k); }
      }
      assert all[..|all|] == all;
      assert noted + Cancels(all) == old(attempts) + ([ListSubs] + Cancels(all));
    }

    /** The debit of the whole balance: refused while part of it is frozen, and refused
        by the ledger's unique reference once this account has been debited for a purge. */
    method DebitAll() returns (failed: bool)
      requires wallet.Some?
      modifies this`wallet, this`purgeDebited
      ensures var ok := old(wallet.value.frozen) <= 0 && !old(purgeDebited);
              && (failed <==> !ok || faults.debit.Reported())
              && wallet.Some? && wallet.value.frozen == old(wallet.value.frozen)
              && wallet.value.balance == (if ok && faults.debit.Applied() then 0 else old(wallet.value.balance))
              && purgeDebited == (old(purgeDebited) || (ok && faults.debit.Applied()))
    {
      var amount := wallet.value.balance;
      if wallet.value.balance - wallet.value.frozen < amount || purgeDebited { return true; }
      if faults.debit.Applied() {
        wallet := Some(wallet.value.(balance := wallet.value.balance - amount));
        purgeDebited := true;
      }
      return faults.debit.Reported();
    }

    method ZeroWallet()
      modifies this`wallet, this`purgeDebited, this`attempts, this`failures
      ensures attempts == old(attempts) + WalletAttempts(walletWired, old(wallet), faults.balance)
      ensures failures == old(failures) + WalletFailures(walletWired, old(wallet), old(purgeDebited), faults)
      ensures wallet == WalletAfter(walletWired, old(wallet), old(purgeDebited), faults)
      ensures purgeDebited == (old(purgeDebited) || Debited(walletWired, old(wallet), old(purgeDebited), faults))
    {
      if !walletWired { return; }
      Note(ReadBalance);
      if faults.balance {
        CaptureErr(ReadBalance, true);
      } else if wallet.Some? && wallet.value.balance > 0 {
        var amount := wallet.value.balance;
        Note(Debit(amount));
        assert attempts == old(attempts) + [ReadBalance, Debit(amount)];
        var failed := DebitAll();
        CaptureErr(Debit(amount), failed);
      }
    }

    method DisableIdentity()
      modifies this`zitadelActive, this`attempts, this`failures
      ensures attempts == old(attempts) + ZitadelAttempts(zitadelWired, hasZitadelSub)
      ensures failures == old(failures) + ZitadelFailures(zitadelWired, hasZitadelSub, faults)
      ensures zitadelActive == (old(zitadelActive) && !(zitadelWired && hasZitadelSub && faults.zitadel.Applied()))
    {
      if !zitadelWired || !hasZitadelSub { return; }
      Note(Deactivate);
      if faults.zitadel.Applied() { zitadelActive := false; }
      CaptureErr(Deactivate, faults.zitadel.Reported());
    }

    /** What a successful cascade leaves behind. */
    ghost predicate Wiped()
      reads this
    {
      && (subsWired ==> forall i :: 0 <= i < |subs| ==> !subs[i].Paid())
      && (walletWired && wallet.Some? ==> wallet.value.balance <= 0)
      && (zitadelWired && hasZitadelSub ==> !zitadelActive)
    }

    /** Everything the three steps call goes through. */
    predicate CascadeGoesThrough()
      reads this
    {
      && !faults.cascadeLookup && found
      && SubsGoThrough(subsWired, subs, faults) && WalletGoesThrough(walletWired, wallet, purgeDebited, faults)
      && IdentityGoesThrough(zitadelWired, hasZitadelSub, faults)
    }

    /** runCascade: nil exactly when every call goes through, else the first failure; whatever
        fails, each domain's attempts, failures and outcome are those it would have on its own. */
    method RunCascade() returns (r: Outcome)
      requires OneLivePerProduct(subs)
      modifies this`subs, this`wallet, this`purgeDebited, this`zitadelActive, this`attempts, this`failures
      ensures OneLivePerProduct(subs) && |subs| == |old(subs)|
      ensures r.Ok? <==> old(CascadeGoesThrough())
      ensures r.LookupFailed? <==> faults.cascadeLookup || !found
      ensures r.LookupFailed? ==> attempts == old(attempts) && failures == old(failures) && subs == old(subs)
      ensures r.LookupFailed? ==> wallet == old(wallet) && purgeDebited == old(purgeDebited) && zitadelActive == old(zitadelActive)
      ensures !r.LookupFailed? ==>
                attempts == old(attempts) + SubAttempts(subsWired, old(subs), faults.list)
                            + WalletAttempts(walletWired, old(wallet), faults.balance) + ZitadelAttempts(zitadelWired, hasZitadelSub)
      ensures !r.LookupFailed? ==>
                var failed := SubFailures(subsWired, old(subs), faults)
                              + WalletFailures(walletWired, old(wallet), old(purgeDebited), faults)
                              + ZitadelFailures(zitadelWired, hasZitadelSub, faults);
                failures == old(failures) + failed && r == if failed == [] then Ok else CascadeFailed(failed[0])
      ensures !r.LookupFailed? ==> forall i :: 0 <= i < |subs| ==> subs[i] == SubAfter(subsWired, old(subs)[i], i, faults)
      ensures !r.LookupFailed? ==>
                && wallet == WalletAfter(walletWired, old(wallet), old(purgeDebited), faults)
                && zitadelActive == (old(zitadelActive) && !(zitadelWired && hasZitadelSub && faults.zitadel.Applied()))
      ensures r.Ok? ==> Wiped()
    {
      NothingFailsIff(subsWired, walletWired, zitadelWired, hasZitadelSub, subs, wallet, purgeDebited, faults);
      if faults.cascadeLookup || !found { return LookupFailed; }
      var seen := |failures|;
      ghost var w, debited := wallet, purgeDebited;
      ghost var sf, wf := SubFailures(subsWired, subs, faults), WalletFailures(walletWired, w, debited, faults);
      CancelSubscriptions();
      assert wallet == w && purgeDebited == debited;
      ZeroWallet();
      DisableIdentity();
      AppendThree(old(failures), sf, wf, ZitadelFailures(zitadelWired, hasZitadelSub, faults));
      return if |failures| == seen then Ok else CascadeFailed(failures[seen]);
    }

    // ---- The audit row and the account status ----

    predicate PurgeInFlight()
      reads this
    {
      exists i :: 0 <= i < |audits| && audits[i].account == id && audits[i].status.Purging?
    }

    /** The lookup BeginPurge makes of a caller with a positive id. */
    predicate LookedUp(initiatedBy: int) { initiatedBy > 0 && !faults.beginLookup && found }

    /** AccountService.BeginPurge: a row is opened exactly for a positive initiator of an account
        that is found, not deleted and not in flight, when the insert works. */
    method BeginPurge(initiatedBy: int) returns (r: Outcome, alreadyPurged: bool, row: nat)
      requires Valid()
      modifies this`audits
      ensures Valid()
      ensures alreadyPurged <==> LookedUp(initiatedBy) && deleted
      ensures alreadyPurged ==> r.Ok?
      ensures r.Ok? && !alreadyPurged <==> LookedUp(initiatedBy) && !deleted && !old(PurgeInFlight()) && faults.insert.NoFault?
      ensures r.InFlight? <==> LookedUp(initiatedBy) && !deleted && old(PurgeInFlight()) && faults.insert.NoFault?
      ensures r.Ok? || r.BeginFailed? || r.InFlight?
      ensures audits == if LookedUp(initiatedBy) && !deleted && !old(PurgeInFlight()) && faults.insert.Applied()
                        then old(audits) + [Audit(id, initiatedBy, Purging)] else old(audits)
      ensures r.Ok? && !alreadyPurged ==> row == |old(audits)|
    {
      row := 0;
      if initiatedBy <= 0 || faults.beginLookup || !found { return BeginFailed, false, 0; }
      if deleted { return Ok, true, 0; }
      if faults.insert.FailedBefore? { return BeginFailed, false, 0; }
      for i := 0 to |audits|
        invariant forall j :: 0 <= j < i ==> !(audits[j].account == id && audits[j].status.Purging?)
      {
        if audits[i].account == id && audits[i].status.Purging? {
          return if faults.insert.ReplyLost? then BeginFailed else InFlight, false, 0;
        }
      }
      audits := audits + [Audit(id, initiatedBy, Purging)];
      if faults.insert.ReplyLost? { return BeginFailed, false, 0; }
      return Ok, false, |audits| - 1;
    }

    /** markAccountDeleted reports no error. */
    predicate FlipGoesThrough()
      reads this
    {
      !faults.flipLookup && found && (deleted || faults.flip.NoFault?)
    }

    /** FinishPurge: the account flips first, the audit row second. */
    method FinishPurge(row: nat, success: bool) returns (ok: bool)
      requires row < |audits| && audits[row].status.Purging? && OnePurging(audits)
      modifies this`audits, this`deleted
      ensures ok <==> (success ==> old(FlipGoesThrough())) && faults.mark.NoFault?
      ensures deleted == (old(deleted) || (success && !faults.flipLookup && found && faults.flip.Applied()))
      ensures audits == old(audits)[row := old(audits)[row].(status :=
                if !faults.mark.Applied() then Purging else if success && old(FlipGoesThrough()) then Completed else Failed)]
      ensures audits[row].status.Completed? ==> deleted
    {
      if !success {
        if faults.mark.Applied() { audits := audits[row := audits[row].(status := Failed)]; }
        return !faults.mark.Reported();
      }
      var flipFailed := faults.flipLookup || !found;
      if !flipFailed && !deleted {
        if faults.flip.Applied() { deleted := true; }
        flipFailed := faults.flip.Reported();
      }
      if flipFailed {
        if faults.mark.Applied() { audits := audits[row := audits[row].(status := Failed)]; }
        return false;
      }
      if faults.mark.Applied() { audits := audits[row := audits[row].(status := Completed)]; }
      return !faults.mark.Reported();
    }

    /** Everything a purge by this caller calls goes through. */
    predicate PurgeGoesThrough()
      reads this
    {
      && !PurgeInFlight() && faults.insert.NoFault? && CascadeGoesThrough()
      && FlipGoesThrough() && faults.mark.NoFault?
    }

    /** This call gets to run the cascade. */
    predicate Opens(isDeleteAccount: bool, target: int, callerId: int)
      reads this
    {
      isDeleteAccount && target > 0 && LookedUp(callerId) && !deleted && !PurgeInFlight() && faults.insert.NoFault?
    }

    /** ExecuteDelegate: nil exactly for the right operation and target, a caller with a positive
        id (never the cron adapter's 0), an account that is found, and either deleted already or
        purged now with every call going through. */
    method ExecuteDelegate(isDeleteAccount: bool, target: int, callerId: int) returns (r: Outcome)
      requires Valid() && (target <= 0 || target == id)
      modifies this
      ensures Valid()
      ensures r.Ok? <==> isDeleteAccount && target > 0 && LookedUp(callerId) && (old(deleted) || old(PurgeGoesThrough()))
      // the account is flipped exactly by a purge whose cascade went through and whose flip took effect
      ensures deleted <==>
        old(deleted) || (old(Opens(isDeleteAccount, target, callerId)) && old(CascadeGoesThrough())
                         && !faults.flipLookup && faults.flip.Applied())
      // a success that was not one already means that everything wired was wiped and the audit row says so
      ensures r.Ok? && !old(deleted) ==> Wiped() && audits == old(audits) + [Audit(id, callerId, Completed)]
      // a live subscription is then left exactly if one was a trial
      ensures r.Ok? && !old(deleted) && subsWired ==>
                ((exists i :: 0 <= i < |subs| && subs[i].Live()) <==> exists i :: 0 <= i < |old(subs)| && old(subs)[i].status.Trial?)
      // every other audit row is untouched, and one row is added exactly when its insert takes effect
      ensures old(audits) <= audits && |audits| <= |old(audits)| + 1
      ensures |audits| > |old(audits)| <==>
                isDeleteAccount && target > 0 && LookedUp(callerId) && !old(deleted) && !old(PurgeInFlight()) && faults.insert.Applied()
      // it is completed exactly when the cascade and the flip went through, left in flight exactly when the
      // insert's reply was lost or the final mark took no effect, and failed otherwise
      ensures |audits| > |old(audits)| ==>
                audits[|old(audits)|] == Audit(id, callerId,
                  if faults.insert.ReplyLost? || !faults.mark.Applied() then Purging
                  else if old(CascadeGoesThrough()) && old(FlipGoesThrough()) then Completed else Failed)
      // the three steps are run exactly by a call that opened its row
      ensures old(Opens(isDeleteAccount, target, callerId)) && !faults.cascadeLookup ==>
                && attempts == old(attempts) + SubAttempts(subsWired, old(subs), faults.list)
                               + WalletAttempts(walletWired, old(wallet), faults.balance) + ZitadelAttempts(zitadelWired, hasZitadelSub)
                && wallet == WalletAfter(walletWired, old(wallet), old(purgeDebited), faults)
                && zitadelActive == (old(zitadelActive) && !(zitadelWired && hasZitadelSub && faults.zitadel.Applied()))
      ensures old(Opens(isDeleteAccount, target, callerId)) && !faults.cascadeLookup ==>
                |subs| == |old(subs)| && forall i :: 0 <= i < |subs| ==> subs[i] == SubAfter(subsWired, old(subs)[i], i, faults)
      ensures !old(Opens(isDeleteAccount, target, callerId)) || faults.cascadeLookup ==>
                attempts == old(attempts) && subs == old(subs) && wallet == old(wallet) && zitadelActive == old(zitadelActive)
      ensures r.InFlight? <==>
                isDeleteAccount && target > 0 && LookedUp(callerId) && !old(deleted) && old(PurgeInFlight()) && faults.insert.NoFault?
    {
      if !isDeleteAccount { return UnsupportedOp; }
      if target <= 0 { return MissingTarget; }
      var alreadyPurged, row;
      r, alreadyPurged, row := BeginPurge(callerId);
      if !r.Ok? || alreadyPurged { return; }
      ghost var begun := audits;
      var cascade := RunCascade();
      var finished := FinishPurge(row, cascade.Ok?);
      assert audits[..|old(audits)|] == old(audits);
      if !cascade.Ok? { return cascade; }
      if !finished { return FinishFailed; }
      assert audits == old(audits) + [audits[row]];
      return Ok;
    }
  }
}
