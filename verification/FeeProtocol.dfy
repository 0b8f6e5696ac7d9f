/** From initialize to startCompute: which fees are issued, that they are accepted once
    ordered, and which order the job is charged to. */
module FeeProtocol {
  import opened Options
  import opened ComputeFees
  import Strings

  // ---------- what one initialize call issues ----------

  /** At most one compute fee, and only if no asset so far, itself included, has paid. */
  lemma AtMostOneComputeFee(req: Request, assets: seq<Asset>, i: nat, j: nat)
    requires i < |assets| && j < |assets|
    requires IsComputeFee(FeeFor(req, assets, i))
    ensures IsComputeFee(FeeFor(req, assets, j)) ==> i == j
    ensures forall k :: 0 <= k <= i ==> !PaysAlready(req, assets[k])
  {
    assert NeedsFee(req, assets[i]) && !PaidBefore(req, assets, i);
    if IsComputeFee(FeeFor(req, assets, j)) {
      assert NeedsFee(req, assets[j]) && !PaidBefore(req, assets, j);
    }
    assert !PaysAlready(req, assets[i]);
  }

  /** A compute fee is issued exactly when some asset needs a fee and none before it, nor
      itself, has paid. */
  lemma {:induction false} ComputeFeeIssuedIff(req: Request, assets: seq<Asset>, n: nat)
    requires n <= |assets|
    ensures (exists i :: 0 <= i < n && IsComputeFee(FeeFor(req, assets, i))) <==>
            exists i :: 0 <= i < n && NeedsFee(req, assets[i])
                        && forall j :: 0 <= j < i ==> !PaysAlready(req, assets[j])
  {
    if n == 0 {
    } else {
      ComputeFeeIssuedIff(req, assets, n - 1);
      var last := n - 1;
      if NeedsFee(req, assets[last]) && (forall j :: 0 <= j < last ==> !PaysAlready(req, assets[j])) {
        if PaidBefore(req, assets, last) {
          var k :| 0 <= k < last && (PaysAlready(req, assets[k]) || NeedsFee(req, assets[k]));
          assert NeedsFee(req, assets[k]);
        } else {
          assert IsComputeFee(FeeFor(req, assets, last));
        }
      }
    }
  }

  /** If no compute is found in the end, no asset was decryptable with an invalid fee. */
  lemma NoComputeMeansNothingToIssue(req: Request, assets: seq<Asset>)
    requires !PaidBefore(req, assets, |assets|)
    ensures forall i :: 0 <= i < |assets| ==> FeeFor(req, assets, i) == None
    ensures forall i :: 0 <= i < |assets| && assets[i].Asset? && !Fails(req, assets[i]) && assets[i].canDecrypt ==>
              FeeState(req, assets[i]).isValid && !FeeState(req, assets[i]).isComputeValid
  {
    forall i | 0 <= i < |assets| ensures !NeedsFee(req, assets[i]) && !PaysAlready(req, assets[i]) {}
  }

  /** A fee lasts as long as was asked, or as the order will if that is less. */
  lemma FeeLifetime(req: Request, assets: seq<Asset>, i: nat)
    requires i < |assets| && FeeFor(req, assets, i).Some?
    ensures var a, until := assets[i], FeeFor(req, assets, i).value.validUntil;
            if a.service.timeout == 0.0 then until == Round(req.validUntil)
            else until <= Round(req.validUntil) && until <= Round(a.now + a.service.timeout)
                 && (until == Round(req.validUntil) || until == Round(a.now + a.service.timeout))
  {
  }

  // ---------- startCompute ----------

  /** An asset that ends the start request with an error. */
  predicate Stops(a: Asset) {
    a.Asset? && (a.blocked || (a.computeOnly && !a.canDecrypt) || !a.hasEnv || !HasValidOrder(a))
  }

  datatype Started = Started(agreementId: string, chainId: int, validUntil: int)

  /** The fee state of an asset's order when the job starts: no least duration is asked. */
  function StateAtStart(wallet: string, env: string, a: Asset): Option<Validation>
    requires HasValidOrder(a)
  {
    Verified(a.order.value.receipt, wallet, a.service, env, 0.0, a.now)
  }

  predicate PaysForCompute(wallet: string, env: string, a: Asset) {
    HasValidOrder(a) && StateAtStart(wallet, env, a).Some? && StateAtStart(wallet, env, a).value.isComputeValid
  }

  /** Asset i is the first that pays for compute, and no check before it blows up. */
  predicate Picks(wallet: string, env: string, assets: seq<Asset>, i: int) {
    && 0 <= i < |assets| && PaysForCompute(wallet, env, assets[i])
    && forall j :: 0 <= j < i && HasValidOrder(assets[j]) ==>
         StateAtStart(wallet, env, assets[j]).Some? && !PaysForCompute(wallet, env, assets[j])
  }

  function StartedBy(wallet: string, env: string, a: Asset): Started
    requires PaysForCompute(wallet, env, a)
  {
    Started(a.order.value.tx, a.chainId, StateAtStart(wallet, env, a).value.validUntil)
  }

  /** The compute-selection loop; None stands for any error answer. */
  method StartCompute(wallet: string, env: string, algorithm: Asset, datasets: seq<Asset>) returns (r: Option<Started>)
    requires env != ""
    ensures var assets := [algorithm] + datasets;
            r.Some? <==> (forall i :: 0 <= i < |assets| ==> !Stops(assets[i]))
                         && exists i :: Picks(wallet, env, assets, i)
    ensures var assets := [algorithm] + datasets;
            r.Some? ==> forall i :: Picks(wallet, env, assets, i) ==> r.value == StartedBy(wallet, env, assets[i])
    ensures var assets := [algorithm] + datasets;
            r.Some? ==> exists i :: 0 <= i < |assets| && IsPaid(wallet, env, assets[i])
                                    && r.value.agreementId == assets[i].order.value.tx
                                    && r.value.chainId == assets[i].chainId
  {
    var assets := [algorithm] + datasets;
    var foundValidCompute: Option<Started> := None;
    var k := 0;
    while k < |assets|
      invariant 0 <= k <= |assets|
      invariant forall i :: 0 <= i < k ==> !Stops(assets[i])
      invariant foundValidCompute.None? ==>
                  forall j :: 0 <= j < k && HasValidOrder(assets[j]) ==>
                    StateAtStart(wallet, env, assets[j]).Some? && !PaysForCompute(wallet, env, assets[j])
      invariant foundValidCompute.Some? ==>
                  exists i :: 0 <= i < k && Picks(wallet, env, assets, i)
                              && foundValidCompute.value == StartedBy(wallet, env, assets[i])
                              && IsPaid(wallet, env, assets[i])
    {
      var elem := assets[k];
      if elem.Asset? {
        if elem.blocked || (elem.computeOnly && !elem.canDecrypt) || !elem.hasEnv {
          return None;
        }
        if elem.order.None? || elem.order.value.tx == "" || !elem.order.value.valid {
          return None;
        }
        var validFee := Some(Validation(false, false, 0));
        if foundValidCompute.None? {
          validFee := VerifyProviderFees(elem.order.value.receipt, wallet, elem.service, env, 0.0, elem.now);
          if validFee.None? {
            NothingPicked(wallet, env, assets, k);
            return None;
          }
        }
        if validFee.value.isComputeValid {
          foundValidCompute := Some(Started(elem.order.value.tx, elem.chainId, validFee.value.validUntil));
          assert Picks(wallet, env, assets, k);
          PaysIffPaid(wallet, env, elem);
        }
      }
      k := k + 1;
    }
    return foundValidCompute;
  }

  /** An order that paid this provider for this service and environment: every fee event of
      its receipt comes from the node's wallet, names the service and its datatoken, and has
      not expired, and the last one names the environment. */
  predicate IsPaid(wallet: string, env: string, a: Asset) {
    && a.Asset? && a.order.Some? && a.order.value.valid && a.order.value.receipt.Mined?
    && var events := a.order.value.receipt.events;
       && events != []
       && (forall k :: 0 <= k < |events| ==>
             && events[k].data.Data?
             && Strings.ToLower(events[k].providerFeeAddress) == Strings.ToLower(wallet)
             && events[k].data.data.id == a.service.id
             && Strings.ToLower(events[k].data.data.dt) == Strings.ToLower(a.service.datatokenAddress)
             && (Round(a.now) < events[k].validUntil || events[k].validUntil == 0))
       && events[|events| - 1].data.data.environment == Some(env)
  }

  /** Which assets stop a job: like those that make the fees fail, and those without a valid
      order. */
  lemma StopsIff(a: Asset)
    ensures Stops(a) <==>
              && a.Asset?
              && (|| a.blocked || (a.computeOnly && !a.canDecrypt) || !a.hasEnv
                  || a.order.None? || a.order.value.tx == "" || !a.order.value.valid)
  {
  }

  /** The orders that count as paying are exactly those. */
  lemma PaysIffPaid(wallet: string, env: string, a: Asset)
    requires env != ""
    ensures PaysForCompute(wallet, env, a) <==> HasValidOrder(a) && IsPaid(wallet, env, a)
  {
    if HasValidOrder(a) {
      ValidIff(a.order.value.receipt, wallet, a.service, env, 0.0, a.now);
      hide Strings.ToLower, Round, Verified;
      if a.order.value.receipt.Mined? {
        var events := a.order.value.receipt.events;
        assert forall k :: 0 <= k < |events| ==> events[k] in events;
      }
    }
  }

  /** A check that blows up before any asset pays means that none is picked. */
  lemma NothingPicked(wallet: string, env: string, assets: seq<Asset>, k: nat)
    requires k < |assets| && HasValidOrder(assets[k]) && StateAtStart(wallet, env, assets[k]).None?
    requires forall j :: 0 <= j < k && HasValidOrder(assets[j]) ==> !PaysForCompute(wallet, env, assets[j])
    ensures !exists i :: Picks(wallet, env, assets, i)
  {
  }

  // ---------- the protocol ----------

  /** The assets as they are when the job starts: every fee issued has been ordered, the
      other orders are kept, and nothing else stands in the way. */
  ghost predicate OrderedAsIssued(req: Request, assets: seq<Asset>, later: seq<Asset>) {
    && |later| == |assets|
    && forall i :: 0 <= i < |assets| ==>
         && later[i].Asset? == assets[i].Asset?
         && (assets[i].Asset? ==>
               && !Stops(later[i]) && later[i].service == assets[i].service
               && match FeeFor(req, assets, i)
                  case Some(fee) =>
                    && later[i].order.value.receipt == Mined([EventOf(fee)])
                    && Round(later[i].now) < fee.validUntil
                  case None => later[i].order == assets[i].order)
  }

  /** A kept order that still counts as paying for the environment, for however short. */
  predicate KeptOrderPays(req: Request, assets: seq<Asset>, later: seq<Asset>, j: int) {
    && 0 <= j < |assets| && |later| == |assets| && FeeFor(req, assets, j).None?
    && HasValidOrder(later[j]) && IsPaid(req.wallet, req.env, later[j])
  }

  /** Every issued fee, once ordered, is valid when the job starts; the compute fee pays
      for compute, for as long as was asked, and access fees do not. */
  lemma IssuedFeesAreAccepted(req: Request, assets: seq<Asset>, later: seq<Asset>, i: nat)
    requires req.env != "" && OrderedAsIssued(req, assets, later)
    requires i < |assets| && FeeFor(req, assets, i).Some?
    ensures HasValidOrder(later[i])
    ensures var v := StateAtStart(req.wallet, req.env, later[i]);
            && v.Some? && v.value.isValid
            && (v.value.isComputeValid <==> IsComputeFee(FeeFor(req, assets, i)))
            && (v.value.isComputeValid ==> v.value.validUntil == Round(req.validUntil))
  {
    var a := assets[i];
    var compute := !PaidBefore(req, assets, i);
    CreatedFeeIsVerified(req.wallet, a.service, BestValidUntil(req, a),
                         if compute then Some(req.env) else None, if compute then Some(req.validUntil) else None,
                         req.env, 0.0, later[i].now);
  }

  lemma KeptOrderState(req: Request, assets: seq<Asset>, later: seq<Asset>, j: nat)
    requires req.env != "" && OrderedAsIssued(req, assets, later)
    requires j < |assets| && FeeFor(req, assets, j).None? && HasValidOrder(later[j])
    requires !Fails(req, assets[j])
    ensures StateAtStart(req.wallet, req.env, later[j]).Some?
    ensures PaysForCompute(req.wallet, req.env, later[j]) <==> KeptOrderPays(req, assets, later, j)
  {
    PaysIffPaid(req.wallet, req.env, later[j]);
  }

  /** The job is charged to the order of the issued compute fee, until the time asked
      for, exactly when no kept order of an asset before it still pays for the same
      environment. (Such an order may be too short for the request: initialize does not
      count it, but startCompute takes it.) */
  lemma ComputeFeeIsChargedIff(req: Request, assets: seq<Asset>, later: seq<Asset>, c: nat)
    requires req.env != "" && OrderedAsIssued(req, assets, later)
    requires forall i :: 0 <= i < |assets| ==> !Fails(req, assets[i])
    requires c < |assets| && IsComputeFee(FeeFor(req, assets, c))
    ensures PaysForCompute(req.wallet, req.env, later[c])
    ensures StartedBy(req.wallet, req.env, later[c])
         == Started(later[c].order.value.tx, later[c].chainId, Round(req.validUntil))
    ensures Picks(req.wallet, req.env, later, c) <==>
              forall j :: 0 <= j < c ==> !KeptOrderPays(req, assets, later, j)
  {
    IssuedFeesAreAccepted(req, assets, later, c);
    forall j | 0 <= j < c && HasValidOrder(later[j])
      ensures StateAtStart(req.wallet, req.env, later[j]).Some?
      ensures PaysForCompute(req.wallet, req.env, later[j]) <==> KeptOrderPays(req, assets, later, j)
    {
      if FeeFor(req, assets, j).Some? {
        IssuedFeesAreAccepted(req, assets, later, j);
        AtMostOneComputeFee(req, assets, c, j);
      } else {
        KeptOrderState(req, assets, later, j);
      }
    }
  }

  /** When every asset got its fee from the request, the job is always charged to it. */
  lemma FreshOrdersAreChargedAsIssued(req: Request, assets: seq<Asset>, later: seq<Asset>, c: nat)
    requires req.env != "" && OrderedAsIssued(req, assets, later)
    requires forall i :: 0 <= i < |assets| ==> !Fails(req, assets[i])
    requires forall i :: 0 <= i < |assets| ==> assets[i].Raw? || FeeFor(req, assets, i).Some?
    requires c < |assets| && IsComputeFee(FeeFor(req, assets, c))
    ensures Picks(req.wallet, req.env, later, c)
  {
    ComputeFeeIsChargedIff(req, assets, later, c);
  }

  /** Such an order exists: too short for the request, so a compute fee is issued for
      another asset, yet the job is charged to it and runs for less than was asked. */
  lemma ShortKeptOrderIsCharged()
    ensures exists req: Request, assets: seq<Asset>, later: seq<Asset> ::
              && OrderedAsIssued(req, assets, later) && |assets| == 2
              && IsComputeFee(FeeFor(req, assets, 1))
              && Picks(req.wallet, req.env, later, 0)
              && StartedBy(req.wallet, req.env, later[0]).validUntil < Round(req.validUntil)
  {
    var req := Request("W", "E", 100.0);
    var service := Service("s", "dt", 0.0);
    var old50 := Order("t0", true, Mined([EventOf(CreateProviderFee("W", service, 50.0, Some("E"), Some(50.0)))]));
    var kept := Asset(service, 1, false, true, false, true, Some(old50), 10.0);
    var bare := Asset(service, 1, false, true, false, true, None, 10.0);
    var assets := [kept, bare];
    assert FeeState(req, kept) == Validation(true, false, 50);
    assert !PaidBefore(req, assets, 1);
    assert FeeFor(req, assets, 0) == None;
    var fee := ComputeFee(req, bare);
    assert FeeFor(req, assets, 1) == Some(fee) && fee.validUntil == 100;
    var later := [kept, bare.(order := Some(Order("t1", true, Mined([EventOf(fee)]))))];
    assert OrderedAsIssued(req, assets, later);
    assert StateAtStart("W", "E", kept) == Some(Validation(true, true, 50));
    assert Picks("W", "E", later, 0);
  }
}
