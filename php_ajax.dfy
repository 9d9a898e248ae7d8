/** The results an ajax request reports back to the page: a request
    result (1 when every operation passed, 0 when some did, -1 when none
    did), a message, and one operation result per operation performed.
    A value fetched from the database is typed by its PHP kind. */
module AjaxResults {
  import opened Wrappers

  /** The PHP value a database call hands back. */
  datatype DbValue = Null | Object | Array | Int(i: int) | Bool(b: bool) | Str(s: string)

  /** PHP's loose comparison of a non-object value with the integer -1:
      integers compare by value, a boolean compares with true (every
      non-zero integer is true), a numeric string by its number; null and
      arrays never equal -1. Of the numeric strings only the plain spelling
      "-1" is recognised here. */
  predicate LooselyMinusOne(v: DbValue)
  {
    match v
    case Int(i) => i == -1
    case Bool(b) => b
    case Str(s) => s == "-1"
    case _ => false
  }

  /** newFromDbObject's test: null, or a non-object loosely equal to -1. */
  predicate DbFailure(v: DbValue)
  {
    v.Null? || (!v.Object? && LooselyMinusOne(v))
  }

  /** Any object, any array and any integer other than -1 count as success;
      null, -1 and true count as failure. */
  lemma DbFailureCases(v: DbValue)
    ensures v.Object? || v.Array? ==> !DbFailure(v)
    ensures v.Int? ==> (DbFailure(v) <==> v.i == -1)
    ensures v.Null? || v == Bool(true) || v == Str("-1") ==> DbFailure(v)
    ensures v == Bool(false) ==> !DbFailure(v)
  {
  }

  /** OperationResult: the outcome of one operation, 1 passed, 0 failed. */
  class OperationResult {
    var result: Option<int>
    var id: Option<string>
    var displayMessage: Option<string>
    var displayContent: Option<string>
    var errorCode: Option<string>

    constructor ()
      ensures result == None && id == None && displayMessage == None
      ensures displayContent == None && errorCode == None
    {
      result := None;
      id := None;
      displayMessage := None;
      displayContent := None;
      errorCode := None;
    }

    method SetPassed() returns (r: OperationResult)
      modifies this
      ensures r == this && result == Some(1)
      ensures id == old(id) && displayMessage == old(displayMessage)
      ensures displayContent == old(displayContent) && errorCode == old(errorCode)
    {
      result := Some(1);
      return this;
    }

    method SetFailed() returns (r: OperationResult)
      modifies this
      ensures r == this && result == Some(0)
      ensures id == old(id) && displayMessage == old(displayMessage)
      ensures displayContent == old(displayContent) && errorCode == old(errorCode)
    {
      result := Some(0);
      return this;
    }
  }

  /** RequestResult: the overall outcome, message and per-operation
      results of one request. */
  class RequestResult {
    var result: Option<int>
    var displayMessage: Option<string>
    var operationResults: seq<OperationResult>

    constructor ()
      ensures result == None && displayMessage == None && operationResults == []
      ensures !IsPassed()
    {
      result := None;
      displayMessage := None;
      operationResults := [];
    }

    method SetPassed() returns (r: RequestResult)
      modifies this
      ensures r == this && result == Some(1) && IsPassed()
      ensures displayMessage == old(displayMessage) && operationResults == old(operationResults)
    {
      result := Some(1);
      return this;
    }

    /** isPassed: the result is 1; an unset (null) result is not. */
    predicate IsPassed()
      reads this
    {
      result == Some(1)
    }

    method SetFailed() returns (r: RequestResult)
      modifies this
      ensures r == this && result == Some(-1) && !IsPassed()
      ensures displayMessage == old(displayMessage) && operationResults == old(operationResults)
    {
      result := Some(-1);
      return this;
    }

    method SetPartialFailure() returns (r: RequestResult)
      modifies this
      ensures r == this && result == Some(0) && !IsPassed()
      ensures displayMessage == old(displayMessage) && operationResults == old(operationResults)
    {
      result := Some(0);
      return this;
    }

    /** addOperationResult: appends, keeping the earlier results. */
    method AddOperationResult(op: OperationResult)
      modifies this
      ensures operationResults == old(operationResults) + [op]
      ensures result == old(result) && displayMessage == old(displayMessage)
    {
      operationResults := operationResults + [op];
    }
  }

  /** newFromDbObject: a fresh result, failed (-1) exactly when the value
      is null or loosely -1, passed (1) otherwise. */
  method NewFromDbObject(obj: DbValue) returns (res: RequestResult)
    ensures fresh(res)
    ensures res.result == Some(if DbFailure(obj) then -1 else 1)
    ensures res.IsPassed() <==> !DbFailure(obj)
    ensures res.displayMessage == None && res.operationResults == []
  {
    res := new RequestResult();
    var ignored;
    if DbFailure(obj) {
      ignored := res.SetFailed();
    } else {
      ignored := res.SetPassed();
    }
  }

  /** fromRequestResult as written: it builds the operation result but has
      no return statement, so every caller receives null, whatever the
      request's outcome. */
  method FromRequestResultAsWritten(reqResult: RequestResult) returns (r: Option<OperationResult>)
    ensures r == None
  {
    var opres := new OperationResult();
    var ignored;
    if reqResult.IsPassed() {
      ignored := opres.SetPassed();
    } else {
      ignored := opres.SetFailed();
    }
    return None;
  }

  /** fromRequestResult as its comment intends: the operation result
      mirrors the request, passed (1) when the request passed and failed (0)
      otherwise. */
  method FromRequestResult(reqResult: RequestResult) returns (r: OperationResult)
    ensures fresh(r)
    ensures r.result == Some(if reqResult.IsPassed() then 1 else 0)
  {
    var opres := new OperationResult();
    if reqResult.IsPassed() {
      r := opres.SetPassed();
    } else {
      r := opres.SetFailed();
    }
  }
}
