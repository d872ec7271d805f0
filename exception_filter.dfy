/**
 * The global exception filter: turns a thrown HTTP exception into the status
 * and JSON body written to the client. The request URL and the current time
 * are inputs; writing the response is left to the caller.
 */
module ExceptionFilter {
  import opened Wrappers
  import opened JsonObjects
  import opened Exceptions

  /** What the filter writes: `res.status(status).json(body)`. */
  datatype Written = Written(status: int, body: Obj)

  function Single(k: string, v: Json): (o: Obj)
    ensures Keys(o) == [k] && Get(o, k) == Some(v)
  {
    var o: Entries := [(k, v)];
    assert o[1..] == [] && Keys(o) == [k] && [k][1..] == [];
    assert Distinct([k]);
    o
  }

  /** The exception's response as an object: a string under `error`, an object copied, anything else a fixed error. */
  function ErrorResponse(response: Response): Obj
  {
    match response
    case Text(s) => Single("error", JStr(s))
    case Record(fields) => SpreadKeys([], fields); Spread([], fields)
    case Null => []  // `typeof null` is "object", and spreading null copies nothing
    case NonObject => Single("error", JStr("Internal server error"))
  }

  predicate MessageIsArray(o: Entries)
  {
    Get(o, "message").Some? && Get(o, "message").value.JArr?
  }

  /** The branch on a 400 with an array message: both arms leave the object as it is. */
  function KeepValidationMessages(status: int, o: Obj): (r: Obj)
    ensures r == o
  {
    if status == BAD_REQUEST && MessageIsArray(o) then o
    else ShallowCopy(o); Spread([], o)
  }

  /** The keys every body starts with. */
  function Defaults(status: int, timestamp: string, url: string): (o: Obj)
    ensures Keys(o) == ["statusCode", "timestamp", "path"]
    ensures Get(o, "statusCode") == Some(JNum(status))
    ensures Get(o, "timestamp") == Some(JStr(timestamp))
    ensures Get(o, "path") == Some(JStr(url))
  {
    Literal3("statusCode", JNum(status), "timestamp", JStr(timestamp), "path", JStr(url))
  }

  /**
   * `catch(exception, host)`: the status is the exception's, and the body
   * starts with the keys statusCode, timestamp and path; CatchKeys and
   * CatchGet say what else it holds.
   */
  function Catch(exception: HttpError, url: string, timestamp: string): (w: Written)
    ensures w.status == exception.status
    ensures |w.body| >= 3 && Keys(w.body)[..3] == ["statusCode", "timestamp", "path"]
  {
    var status := exception.status;
    var errorResponse := KeepValidationMessages(status, ErrorResponse(exception.response));
    var defaults := Defaults(status, timestamp, url);
    SpreadKeys(defaults, errorResponse);
    Written(status, Spread(defaults, errorResponse))
  }

  /** The body's keys are the three defaults and the response's keys, and nothing else. */
  lemma CatchKeys(exception: HttpError, url: string, timestamp: string, k: string)
    ensures k in Keys(Catch(exception, url, timestamp).body) <==>
              k in ["statusCode", "timestamp", "path"] || k in Keys(ErrorResponse(exception.response))
  {
    SpreadKeys(Defaults(exception.status, timestamp, url), ErrorResponse(exception.response));
  }

  /** After the three defaults, the body lists the response's other keys in the response's own order. */
  lemma CatchKeyOrder(exception: HttpError, url: string, timestamp: string)
    ensures Keys(Catch(exception, url, timestamp).body)
            == ["statusCode", "timestamp", "path"]
               + Fresh(Keys(ErrorResponse(exception.response)), ["statusCode", "timestamp", "path"])
  {
    SpreadKeyOrder(Defaults(exception.status, timestamp, url), ErrorResponse(exception.response));
  }

  /** A key that is neither a default nor in the response is not in the body. */
  lemma CatchOmits(exception: HttpError, url: string, timestamp: string, k: string)
    requires k != "statusCode" && k != "timestamp" && k != "path"
    requires k !in Keys(ErrorResponse(exception.response))
    ensures k !in Keys(Catch(exception, url, timestamp).body)
  {
    CatchKeys(exception, url, timestamp, k);
  }

  /** A key the response carries reads as in the response, overriding the default of the same name; any other key reads as its default. */
  lemma CatchGet(exception: HttpError, url: string, timestamp: string, k: string)
    ensures Get(Catch(exception, url, timestamp).body, k) ==
              if k in Keys(ErrorResponse(exception.response)) then Get(ErrorResponse(exception.response), k)
              else Get(Defaults(exception.status, timestamp, url), k)
  {
    SpreadGet(Defaults(exception.status, timestamp, url), ErrorResponse(exception.response), k);
  }

  /** An object response is taken over as it is. */
  lemma RecordCopied(response: Response)
    requires response.Record?
    ensures ErrorResponse(response) == response.fields
  {
    ShallowCopy(response.fields);
  }

  /** An object response is copied key for key: the body reads every one of its keys as the response does. */
  lemma RecordResponseCopied(exception: HttpError, url: string, timestamp: string)
    requires exception.response.Record?
    ensures var w := Catch(exception, url, timestamp);
      forall k :: k in Keys(exception.response.fields) ==> Get(w.body, k) == Get(exception.response.fields, k)
  {
    ShallowCopy(exception.response.fields);
    forall k | k in Keys(exception.response.fields)
      ensures Get(Catch(exception, url, timestamp).body, k) == Get(exception.response.fields, k)
    {
      CatchGet(exception, url, timestamp, k);
    }
  }

  /** A string response ends up under `error`, beside the default statusCode, timestamp and path. */
  lemma TextResponseBody(exception: HttpError, url: string, timestamp: string)
    requires exception.response.Text?
    ensures var w := Catch(exception, url, timestamp);
      && w.status == exception.status
      && Get(w.body, "error") == Some(JStr(exception.response.text))
      && Get(w.body, "statusCode") == Some(JNum(exception.status))
      && Get(w.body, "timestamp") == Some(JStr(timestamp))
      && Get(w.body, "path") == Some(JStr(url))
      && "message" !in Keys(w.body)
  {
    var body := Catch(exception, url, timestamp).body;
    assert Keys(ErrorResponse(exception.response)) == ["error"];
    assert Get(body, "error") == Some(JStr(exception.response.text)) by {
      CatchGet(exception, url, timestamp, "error");
    }
    assert Get(body, "statusCode") == Some(JNum(exception.status)) by {
      CatchGet(exception, url, timestamp, "statusCode");
    }
    assert Get(body, "timestamp") == Some(JStr(timestamp)) by {
      CatchGet(exception, url, timestamp, "timestamp");
    }
    assert Get(body, "path") == Some(JStr(url)) by {
      CatchGet(exception, url, timestamp, "path");
    }
    CatchOmits(exception, url, timestamp, "message");
  }

  /** A response that is neither a string nor an object yields the fixed "Internal server error". */
  lemma NonObjectResponseBody(exception: HttpError, url: string, timestamp: string)
    requires exception.response.NonObject?
    ensures Get(Catch(exception, url, timestamp).body, "error") == Some(JStr("Internal server error"))
  {
    assert ErrorResponse(exception.response) == Single("error", JStr("Internal server error"));
    CatchGet(exception, url, timestamp, "error");
  }

  /** A DatabaseException reaches the client as status 500 with its label and message. */
  lemma DatabaseExceptionBody(message: string, url: string, timestamp: string)
    ensures var w := Catch(DatabaseException(message), url, timestamp);
      && w.status == 500
      && Get(w.body, "statusCode") == Some(JNum(500))
      && Get(w.body, "error") == Some(JStr("Database Error"))
      && Get(w.body, "message") == Some(JStr(message))
      && Get(w.body, "path") == Some(JStr(url))
  {
    var e := DatabaseException(message);
    RecordCopied(e.response);
    CatchGet(e, url, timestamp, "statusCode");
    CatchGet(e, url, timestamp, "error");
    CatchGet(e, url, timestamp, "message");
    CatchGet(e, url, timestamp, "path");
  }

  /** A DatabaseException's body lists the defaults, then `error` and `message`; its own `statusCode` keeps the first place. */
  lemma DatabaseExceptionKeyOrder(message: string, url: string, timestamp: string)
    ensures Keys(Catch(DatabaseException(message), url, timestamp).body)
            == ["statusCode", "timestamp", "path", "error", "message"]
  {
    var e := DatabaseException(message);
    RecordCopied(e.response);
    CatchKeyOrder(e, url, timestamp);
    DatabaseKeysAfterDefaults();
  }

  lemma DatabaseKeysAfterDefaults()
    ensures Fresh(["statusCode", "error", "message"], ["statusCode", "timestamp", "path"]) == ["error", "message"]
  {
    var defaults := ["statusCode", "timestamp", "path"];
    calc {
      Fresh(["statusCode", "error", "message"], defaults);
      Fresh(["error", "message"], defaults);
      ["error"] + Fresh(["message"], defaults + ["error"]);
      ["error"] + (["message"] + Fresh([], defaults + ["error", "message"]));
      ["error", "message"];
    }
  }

  /** A ValidationException reaches the client as status 400 with its details and no message. */
  lemma ValidationExceptionBody(errors: Json, url: string, timestamp: string)
    ensures var w := Catch(ValidationException(errors), url, timestamp);
      && w.status == 400
      && Get(w.body, "statusCode") == Some(JNum(400))
      && Get(w.body, "error") == Some(JStr("Validation Error"))
      && Get(w.body, "details") == Some(errors)
      && "message" !in Keys(w.body)
  {
    var e := ValidationException(errors);
    var body := Catch(e, url, timestamp).body;
    RecordCopied(e.response);
    assert Get(body, "statusCode") == Some(JNum(400)) by {
      CatchGet(e, url, timestamp, "statusCode");
    }
    assert Get(body, "error") == Some(JStr("Validation Error")) by {
      CatchGet(e, url, timestamp, "error");
    }
    assert Get(body, "details") == Some(errors) by {
      CatchGet(e, url, timestamp, "details");
    }
    CatchOmits(e, url, timestamp, "message");
  }

  /** A response object with its own `statusCode` wins over the default, while the HTTP status stays the exception's. */
  lemma ResponseStatusCodeOverrides(url: string, timestamp: string)
    ensures var w := Catch(HttpError(Plain, 500, Record(Single("statusCode", JNum(418)))), url, timestamp);
      w.status == 500 && Get(w.body, "statusCode") == Some(JNum(418))
  {
    var e := HttpError(Plain, 500, Record(Single("statusCode", JNum(418))));
    ShallowCopy(e.response.fields);
    CatchGet(e, url, timestamp, "statusCode");
  }
}
