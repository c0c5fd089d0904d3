/** The elevation state of a cluster client: who may call with elevated rights, and the audit of those calls. */
module Elevation {
  import opened Sequences
  import Text

  /** The fields that decide and record elevation. */
  datatype Client = Client(
    noElevate: bool, hasElevatedClient: bool, broken: bool, deniedReason: string,
    callCount: int, ops: seq<string>, currentCheck: string)

  // ---------- specification of the single operations ----------

  predicate MayElevate(c: Client) {
    !c.noElevate && !c.broken && c.hasElevatedClient
  }

  predicate IsAccessRequest(msg: string) {
    Text.Contains(msg, "access request") || Text.Contains(msg, "accessrequest")
  }

  predicate IsForbidden(msg: string) {
    Text.Contains(msg, "Forbidden") || Text.Contains(msg, "unknown (get") || Text.Contains(msg, "unknown (list")
  }

  /** The reason that an error gives for disabling elevation, if any. */
  function Refusal(err: Option<string>): Option<string> {
    if err.None? then None
    else if IsAccessRequest(err.value) then Some("access_request")
    else if IsForbidden(err.value) then Some("forbidden")
    else None
  }

  /** The texts that disable elevation; a request for access takes precedence. */
  lemma RefusalTexts(msg: string)
    ensures Refusal(Some(msg)) == Some("access_request")
       <==> Text.Contains(msg, "access request") || Text.Contains(msg, "accessrequest")
    ensures Refusal(Some(msg)) == Some("forbidden")
       <==> Refusal(Some(msg)) != Some("access_request")
            && (Text.Contains(msg, "Forbidden")
                || Text.Contains(msg, "unknown (get") || Text.Contains(msg, "unknown (list"))
    ensures Refusal(Some(msg)).None? || Refusal(Some(msg)).value in {"access_request", "forbidden"}
  {
    hide Text.Contains;
    assert |"access_request"| != |"forbidden"|;
  }

  /** After looking at the error of an elevated call with nobody interfering: the first refusal names its reason. */
  function Inspected(c: Client, err: Option<string>): Client {
    if Refusal(err).None? || c.broken then c else c.(broken := true, deniedReason := Refusal(err).value)
  }

  /** The audit entry: tagged with the check, if one is set, unless it already carries a tag. */
  function Entry(check: string, op: string): string {
    if check != "" && !("[" <= op) then "[" + check + "] " + op else op
  }

  function WithOp(c: Client, op: string): Client {
    c.(callCount := c.callCount + 1, ops := c.ops + [Entry(c.currentCheck, op)])
  }

  /** A complete call: recorded first when it is elevated, its error inspected when elevation was asked for. */
  function Called(c: Client, op: string, elevated: bool, err: Option<string>): Client {
    var d := if elevated && MayElevate(c) then WithOp(c, op) else c;
    if elevated then Inspected(d, err) else d
  }

  /** What never changes, and the agreement of counter, log and flags. */
  ghost predicate Sound(c: Client) {
    && c.callCount == |c.ops|
    && (c.noElevate || !c.hasElevatedClient ==> c.callCount == 0)
    && (c.deniedReason != "" ==> c.broken)
    && c.deniedReason in {"", "access_request", "forbidden"}
  }

  /** The client after connecting: elevation is set up only if wanted, justified and granted. */
  function Connected(noElevate: bool, reason: string, granted: bool): Client {
    var wanted := !noElevate && reason != "";
    Client(noElevate, wanted && granted, wanted && !granted, "", 0, [], "")
  }

  // ---------- the client object ----------

  class ClusterClient {
    var noElevate: bool
    var hasElevatedClient: bool
    var elevationBroken: bool
    var elevationDeniedReason: string
    var elevatedCallCount: int
    var elevatedOps: seq<string>
    var currentCheck: string

    function View(): Client
      reads this
    {
      Client(noElevate, hasElevatedClient, elevationBroken, elevationDeniedReason,
             elevatedCallCount, elevatedOps, currentCheck)
    }

    constructor (noElevate: bool, reason: string, loginOk: bool, clientOk: bool)
      ensures View() == Connected(noElevate, reason, loginOk && clientOk)
      ensures hasElevatedClient <==> !noElevate && reason != "" && loginOk && clientOk
      ensures elevationBroken <==> !noElevate && reason != "" && !(loginOk && clientOk)
      ensures Sound(View())
    {
      this.noElevate := noElevate;
      elevationDeniedReason, elevatedCallCount, elevatedOps, currentCheck := "", 0, [], "";
      hasElevatedClient, elevationBroken := false, false;
      if !noElevate && reason != "" {
        if !loginOk || !clientOk {
          elevationBroken := true;
        } else {
          hasElevatedClient := true;
        }
      }
    }

    predicate CanElevate()
      reads this
    {
      !noElevate && !elevationBroken && hasElevatedClient
    }

    /** Run without interference; how tasks can interleave inside it is the subject of ElevationRuns. */
    method CheckElevatedError(err: Option<string>)
      modifies this`elevationBroken, this`elevationDeniedReason
      ensures View() == Inspected(old(View()), err)
    {
      if err.None? {
        return;
      }
      if Text.Contains(err.value, "access request") || Text.Contains(err.value, "accessrequest") {
        if !elevationBroken {
          elevationBroken := true;
          elevationDeniedReason := "access_request";
        }
        return;
      }
      if IsForbidden(err.value) {
        if !elevationBroken {
          elevationBroken := true;
          elevationDeniedReason := "forbidden";
        }
      }
    }

    method RecordElevatedOp(op: string)
      modifies this`elevatedCallCount, this`elevatedOps
      ensures View() == WithOp(old(View()), op)
    {
      elevatedCallCount := elevatedCallCount + 1;
      var entry := op;
      if currentCheck != "" && !("[" <= op) {
        entry := "[" + currentCheck + "] " + op;
      }
      elevatedOps := elevatedOps + [entry];
    }

    /** GetResource and ListResources without the API call itself, whose error comes in as err. */
    method Call(op: string, elevated: bool, err: Option<string>) returns (usedElevated: bool)
      modifies this`elevationBroken, this`elevationDeniedReason, this`elevatedCallCount, this`elevatedOps
      ensures View() == Called(old(View()), op, elevated, err)
      ensures usedElevated <==> elevated && MayElevate(old(View()))
      ensures old(Sound(View())) ==> Sound(View())
    {
      usedElevated := false;
      if elevated && CanElevate() {
        RecordElevatedOp(op);
        usedElevated := true;
      }
      if elevated {
        CheckElevatedError(err);
      }
    }
  }
}
