/** Provider fees for compute jobs: `initialize` issues them, the consumer's orders carry
    them on chain, and `startCompute` looks for the one that pays for the environment.

    Amounts, tokens and signatures are not part of the model. Times are in seconds. */
module ComputeFees {
  import opened Options
  import Arithmetic
  import Strings

  datatype Service = Service(id: string, datatokenAddress: string, timeout: real)

  datatype ProviderData = ProviderData(environment: Option<string>, timestamp: int, dt: string, id: string)

  datatype ProviderFee = ProviderFee(providerFeeAddress: string, providerData: ProviderData, validUntil: int)

  /** The data of a ProviderFee event: no JSON, JSON null, or what a provider wrote. */
  datatype EventData = NotJson | Null | Data(data: ProviderData)

  datatype FeeEvent = FeeEvent(providerFeeAddress: string, data: EventData, validUntil: int)

  datatype Receipt = NotMined | Mined(events: seq<FeeEvent>)

  datatype Validation = Validation(isValid: bool, isComputeValid: bool, validUntil: int)

  /** Math.round. */
  function Round(x: real): int {
    (x + 0.5).Floor
  }

  /** Rounding is to the nearest whole number, and up half way. */
  lemma RoundIsNearest(x: real)
    ensures Round(x) as real - 0.5 <= x < Round(x) as real + 0.5
  {
  }

  // ---------- one fee ----------

  /** createProviderFee: a compute fee names an environment and how long it is paid for. */
  function CreateProviderFee(wallet: string, service: Service, validUntil: real,
                             env: Option<string>, computeValidUntil: Option<real>): ProviderFee {
    var timestamp := if computeValidUntil.Some? then Round(computeValidUntil.value) else 0;
    ProviderFee(wallet, ProviderData(env, timestamp, service.datatokenAddress, service.id), Round(validUntil))
  }

  /** The event that an order with this fee leaves on chain. */
  function EventOf(fee: ProviderFee): FeeEvent {
    FeeEvent(fee.providerFeeAddress, Data(fee.providerData), fee.validUntil)
  }

  predicate EventIsValid(e: FeeEvent, wallet: string, service: Service, now: int) {
    && e.data.Data?
    && Strings.ToLower(e.providerFeeAddress) == Strings.ToLower(wallet)
    && e.data.data.id == service.id
    && Strings.ToLower(e.data.data.dt) == Strings.ToLower(service.datatokenAddress)
    && (now < e.validUntil || e.validUntil == 0)
  }

  /** What verifyProviderFees answers; None is the exception that a receipt without fee
      events causes. An empty `env` asks nothing about compute, a zero `validUntil`
      nothing about how long. */
  function Verified(receipt: Receipt, wallet: string, service: Service, env: string, validUntil: real, now: real):
      Option<Validation> {
    if receipt.NotMined? then Some(Validation(false, false, 0))
    else if receipt.events == [] then None
    else if exists i :: 0 <= i < |receipt.events| && !EventIsValid(receipt.events[i], wallet, service, Round(now)) then
      Some(Validation(false, false, 0))
    else
      var data := receipt.events[|receipt.events| - 1].data.data;
      Some(Validation(true,
                      env == "" || (data.environment == Some(env)
                                    && !(validUntil > 0.0 && data.timestamp as real < validUntil)),
                      data.timestamp))
  }

  method VerifyProviderFees(receipt: Receipt, wallet: string, service: Service, env: string, validUntil: real,
                            now: real)
    returns (r: Option<Validation>)
    ensures r == Verified(receipt, wallet, service, env, validUntil, now)
  {
    if receipt.NotMined? {
      return Some(Validation(false, false, 0));
    }
    var events := receipt.events;
    if events == [] {
      return None;
    }
    var allEventsValid := true;
    var providerData := Null;
    var i := 0;
    while i < |events|
      invariant 0 <= i <= |events|
      invariant allEventsValid <==> forall j :: 0 <= j < i ==> EventIsValid(events[j], wallet, service, Round(now))
      invariant allEventsValid && i > 0 ==> providerData == events[i - 1].data
    {
      var event := events[i];
      if event.data.NotJson? {
        allEventsValid := false;
      } else {
        providerData := event.data;
        if !EventIsValid(event, wallet, service, Round(now)) {
          allEventsValid := false;
          break;
        }
      }
      i := i + 1;
    }
    if !allEventsValid {
      return Some(Validation(false, false, 0));
    }
    var isComputeValid := true;
    if env != "" {
      if providerData.data.environment != Some(env) {
        isComputeValid := false;
      }
      if validUntil > 0.0 && providerData.data.timestamp as real < validUntil {
        isComputeValid := false;
      }
    }
    return Some(Validation(true, isComputeValid, providerData.data.timestamp));
  }

  /** When a mined receipt is found valid: it has fee events, and each of them carries JSON
      data, comes from the node's wallet, names the service and its datatoken, and has not
      expired. It pays for compute if besides the last event names the environment, for long
      enough; the answer's time is the one of the last event. */
  lemma ValidIff(receipt: Receipt, wallet: string, service: Service, env: string, validUntil: real, now: real)
    ensures var v := Verified(receipt, wallet, service, env, validUntil, now);
            && (v.None? <==> receipt.Mined? && receipt.events == [])
            && (v.Some? && v.value.isValid <==>
                  && receipt.Mined? && receipt.events != []
                  && forall e :: e in receipt.events ==>
                       && e.data.Data?
                       && Strings.ToLower(e.providerFeeAddress) == Strings.ToLower(wallet)
                       && e.data.data.id == service.id
                       && Strings.ToLower(e.data.data.dt) == Strings.ToLower(service.datatokenAddress)
                       && (Round(now) < e.validUntil || e.validUntil == 0))
            && (v.Some? && v.value.isValid ==>
                  var last := receipt.events[|receipt.events| - 1].data.data;
                  && v.value.validUntil == last.timestamp
                  && (v.value.isComputeValid <==>
                        env == "" || (last.environment == Some(env)
                                      && (validUntil <= 0.0 || last.timestamp as real >= validUntil))))
            && (v.Some? && v.value.isComputeValid ==> v.value.isValid)
  {
    hide Strings.ToLower, Round;
    if receipt.Mined? && receipt.events != [] {
      if forall i :: 0 <= i < |receipt.events| ==> EventIsValid(receipt.events[i], wallet, service, Round(now)) {
        assert receipt.events[|receipt.events| - 1] in receipt.events;
      } else {
        var i :| 0 <= i < |receipt.events| && !EventIsValid(receipt.events[i], wallet, service, Round(now));
        assert receipt.events[i] in receipt.events;
      }
    }
  }

  /** An ordered fee is accepted until it expires, and for compute exactly if it is a
      compute fee for the environment that lasts long enough. */
  lemma CreatedFeeIsVerified(wallet: string, service: Service, validUntil: real, env: Option<string>,
                             computeValidUntil: Option<real>, asked: string, askedUntil: real, now: real)
    requires asked != ""
    ensures var fee := CreateProviderFee(wallet, service, validUntil, env, computeValidUntil);
            var v := Verified(Mined([EventOf(fee)]), wallet, service, asked, askedUntil, now);
            && v.Some?
            && (v.value.isValid <==> Round(now) < fee.validUntil || fee.validUntil == 0)
            && (v.value.isComputeValid <==>
                  v.value.isValid && env == Some(asked)
                  && !(askedUntil > 0.0 && fee.providerData.timestamp as real < askedUntil))
            && (v.value.isValid ==> v.value.validUntil == fee.providerData.timestamp)
  {
    var fee := CreateProviderFee(wallet, service, validUntil, env, computeValidUntil);
    assert [EventOf(fee)][0] == EventOf(fee);
  }

  // ---------- initialize ----------

  datatype Order = Order(tx: string, valid: bool, receipt: Receipt)

  /** One asset of a request, with what the node finds out about it when its turn comes at
      time `now`: `blocked` is a failed lookup or check, `hasEnv` whether the asked
      environment exists on the asset's chain. Assets without a document are `Raw`. */
  datatype Asset =
    | Raw
    | Asset(service: Service, chainId: int, blocked: bool, canDecrypt: bool, computeOnly: bool, hasEnv: bool,
            order: Option<Order>, now: real)

  datatype Request = Request(wallet: string, env: string, validUntil: real)

  function ValidOrderOf(a: Asset): Option<string> {
    if HasValidOrder(a) then Some(a.order.value.tx) else None
  }

  datatype AssetResult = AssetResult(validOrder: Option<string>, providerFee: Option<ProviderFee>)

  /** The asset whose compute fee will do; the transaction is not known for a new fee. */
  datatype FoundCompute = FoundCompute(tx: Option<string>, chainId: int)

  /** What the asset's order is found to pay for. */
  function OrderState(req: Request, a: Asset): Option<Validation>
    requires HasValidOrder(a)
  {
    Verified(a.order.value.receipt, req.wallet, a.service, req.env, req.validUntil, a.now)
  }

  /** An asset that ends the request with an error. */
  predicate Fails(req: Request, a: Asset) {
    a.Asset? &&
    (|| a.blocked || (a.computeOnly && !a.canDecrypt) || !a.hasEnv
     || (HasValidOrder(a) && OrderState(req, a).None?))
  }

  predicate HasValidOrder(a: Asset) {
    a.Asset? && a.order.Some? && a.order.value.tx != "" && a.order.value.valid
  }

  function FeeState(req: Request, a: Asset): Validation
    requires a.Asset? && !Fails(req, a)
  {
    if HasValidOrder(a) then OrderState(req, a).value
    else Validation(false, false, 0)
  }

  /** An order whose compute fee pays for the request already. */
  predicate PaysAlready(req: Request, a: Asset) {
    a.Asset? && !Fails(req, a) && FeeState(req, a).isComputeValid
  }

  /** An asset the node serves whose provider fee is missing or no longer valid. */
  predicate NeedsFee(req: Request, a: Asset) {
    a.Asset? && !Fails(req, a) && !FeeState(req, a).isValid && a.canDecrypt
  }

  /** Which requests fail: those with an asset that is blocked, cannot be decrypted although
      it is for compute only, has no such environment on its chain, or was validly ordered in
      a transaction without fee events. */
  lemma FailsIff(req: Request, a: Asset)
    ensures Fails(req, a) <==>
              && a.Asset?
              && (|| a.blocked || (a.computeOnly && !a.canDecrypt) || !a.hasEnv
                  || (&& a.order.Some? && a.order.value.tx != "" && a.order.value.valid
                      && a.order.value.receipt.Mined? && a.order.value.receipt.events == []))
  {
    if HasValidOrder(a) {
      ValidIff(a.order.value.receipt, req.wallet, a.service, req.env, req.validUntil, a.now);
    }
  }

  /** A receipt that paid this provider for this service, and has not expired. */
  predicate Pays(receipt: Receipt, wallet: string, service: Service, now: int) {
    && receipt.Mined? && receipt.events != []
    && forall k :: 0 <= k < |receipt.events| ==>
         && receipt.events[k].data.Data?
         && Strings.ToLower(receipt.events[k].providerFeeAddress) == Strings.ToLower(wallet)
         && receipt.events[k].data.data.id == service.id
         && Strings.ToLower(receipt.events[k].data.data.dt) == Strings.ToLower(service.datatokenAddress)
         && (now < receipt.events[k].validUntil || receipt.events[k].validUntil == 0)
  }

  /** Which assets get a fee, in a request that does not fail: the decryptable ones that no
      valid order has paid for. */
  lemma FeeIssuedIff(req: Request, assets: seq<Asset>, i: nat)
    requires i < |assets| && !Fails(req, assets[i])
    ensures FeeFor(req, assets, i).Some? <==>
              var a := assets[i];
              && a.Asset? && a.canDecrypt
              && !(&& a.order.Some? && a.order.value.tx != "" && a.order.value.valid
                   && Pays(a.order.value.receipt, req.wallet, a.service, Round(a.now)))
  {
    var a := assets[i];
    if HasValidOrder(a) {
      ValidIff(a.order.value.receipt, req.wallet, a.service, req.env, req.validUntil, a.now);
      hide Strings.ToLower, Round, Verified;
      if a.order.value.receipt.Mined? {
        var events := a.order.value.receipt.events;
        assert forall k :: 0 <= k < |events| ==> events[k] in events;
      }
    }
  }

  /** What an issued fee says: the node's wallet, the service and its datatoken; a compute
      fee the environment and the time asked for, an access fee neither. */
  lemma IssuedFeeSays(req: Request, assets: seq<Asset>, i: nat)
    requires i < |assets| && FeeFor(req, assets, i).Some?
    ensures var fee, service := FeeFor(req, assets, i).value, assets[i].service;
            && fee.providerFeeAddress == req.wallet
            && fee.providerData.id == service.id && fee.providerData.dt == service.datatokenAddress
            && ((fee.providerData.environment == Some(req.env) && fee.providerData.timestamp == Round(req.validUntil))
                || (fee.providerData.environment == None && fee.providerData.timestamp == 0))
  {
  }

  function BestValidUntil(req: Request, a: Asset): real
    requires a.Asset?
  {
    if a.service.timeout == 0.0 then req.validUntil else Arithmetic.MinReal(a.now + a.service.timeout, req.validUntil)
  }

  function AccessFee(req: Request, a: Asset): ProviderFee
    requires a.Asset?
  {
    CreateProviderFee(req.wallet, a.service, BestValidUntil(req, a), None, None)
  }

  function ComputeFee(req: Request, a: Asset): ProviderFee
    requires a.Asset?
  {
    CreateProviderFee(req.wallet, a.service, BestValidUntil(req, a), Some(req.env), Some(req.validUntil))
  }

  /** Whether, up to and including asset i, compute is paid for or a fee was issued. */
  predicate PaidBefore(req: Request, assets: seq<Asset>, i: int)
    requires i <= |assets|
  {
    exists j :: 0 <= j < i && (PaysAlready(req, assets[j]) || NeedsFee(req, assets[j]))
  }

  /** The fee that asset i ends up with. */
  function FeeFor(req: Request, assets: seq<Asset>, i: nat): Option<ProviderFee>
    requires i < |assets|
  {
    if !NeedsFee(req, assets[i]) then None
    else if PaidBefore(req, assets, i) then Some(AccessFee(req, assets[i]))
    else Some(ComputeFee(req, assets[i]))
  }

  predicate IsComputeFee(fee: Option<ProviderFee>) {
    fee.Some? && fee.value.providerData.environment.Some?
  }

  /** The fee-issuing loop. `failed` stands for any error answer. */
  method InitializeCompute(req: Request, algorithm: Asset, datasets: seq<Asset>)
    returns (failed: bool, algorithmResult: Option<AssetResult>, datasetResults: seq<AssetResult>,
             found: Option<FoundCompute>)
    requires req.env != ""
    ensures var assets := [algorithm] + datasets;
            failed <==> exists i :: 0 <= i < |assets| && Fails(req, assets[i])
    ensures !failed ==>
              var assets := [algorithm] + datasets;
              && algorithmResult.Some? && |datasetResults| == |datasets|
              && (var results := [algorithmResult.value] + datasetResults;
                  forall i :: 0 <= i < |assets| ==>
                    && results[i].providerFee == FeeFor(req, assets, i)
                    && results[i].validOrder == ValidOrderOf(assets[i]))
              && (found.Some? <==> PaidBefore(req, assets, |assets|))
  {
    var assets := [algorithm] + datasets;
    found, algorithmResult, datasetResults := None, None, [];
    var index := 0;
    while index < |assets|
      invariant 0 <= index <= |assets|
      invariant forall i :: 0 <= i < index ==> !Fails(req, assets[i])
      invariant found.Some? <==> PaidBefore(req, assets, index)
      invariant index == 0 ==> datasetResults == []
      invariant index > 0 ==> algorithmResult.Some? && |datasetResults| == index - 1
      invariant index > 0 ==>
                  var results := [algorithmResult.value] + datasetResults;
                  forall i :: 0 <= i < index ==>
                    && results[i].providerFee == FeeFor(req, assets, i)
                    && results[i].validOrder == ValidOrderOf(assets[i])
    {
      ghost var before := found.Some?;
      var ok, result, found' := HandleAsset(req, assets[index], found);
      if !ok {
        return true, None, [], None;
      }
      found := found';
      if index == 0 {
        algorithmResult := Some(result);
      } else {
        datasetResults := datasetResults + [result];
      }
      index := index + 1;
    }
    failed := false;
  }

  /** One turn of the loop. */
  method HandleAsset(req: Request, elem: Asset, found: Option<FoundCompute>)
    returns (ok: bool, result: AssetResult, found': Option<FoundCompute>)
    requires req.env != ""
    ensures ok <==> !Fails(req, elem)
    ensures ok ==>
              && result.validOrder == ValidOrderOf(elem)
              && result.providerFee == (if !NeedsFee(req, elem) then None
                                        else if found.Some? then Some(AccessFee(req, elem))
                                        else Some(ComputeFee(req, elem)))
              && (found'.Some? <==> found.Some? || PaysAlready(req, elem) || NeedsFee(req, elem))
  {
    ok, result, found' := true, AssetResult(None, None), found;
    if elem.Raw? {
      return;
    }
    if elem.blocked || (elem.computeOnly && !elem.canDecrypt) || !elem.hasEnv {
      ok := false;
      return;
    }
    var validFee := Validation(false, false, 0);
    if elem.order.Some? && elem.order.value.tx != "" {
      if elem.order.value.valid {
        result := result.(validOrder := Some(elem.order.value.tx));
        var verified := VerifyProviderFees(elem.order.value.receipt, req.wallet, elem.service, req.env,
                                           req.validUntil, elem.now);
        if verified.None? {
          ok := false;
          return;
        }
        validFee := verified.value;
      }
    }
    if validFee.isComputeValid {
      found' := Some(FoundCompute(Some(elem.order.value.tx), elem.chainId));
    }
    if !validFee.isValid {
      var bestValidUntil := if elem.service.timeout == 0.0 then req.validUntil
                            else Arithmetic.MinReal(elem.now + elem.service.timeout, req.validUntil);
      if found'.Some? || !elem.canDecrypt {
        if elem.canDecrypt {
          var fee := CreateProviderFee(req.wallet, elem.service, bestValidUntil, None, None);
          result := result.(providerFee := Some(fee));
        }
      } else {
        result := result.(providerFee := Some(CreateProviderFee(req.wallet, elem.service, bestValidUntil,
                                                                Some(req.env), Some(req.validUntil))));
        found' := Some(FoundCompute(None, elem.chainId));
      }
    }
  }
}
