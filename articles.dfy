/**
 * The article service: get by id, list by user, create, update and delete over
 * the `saved_articles` table of a hosted store. Every store call targets that
 * one table. The store itself is not modelled: the reply each call receives is
 * an input, and the calls an operation issues are recorded so that "no store
 * call happened" and "the insert was never issued" can be stated.
 */
module Articles {
  import opened Wrappers
  import opened Strings
  import opened JsonObjects
  import opened Exceptions

  datatype QuestionAnswer = QuestionAnswer(question: string, answer: string)

  /** A row of `saved_articles`, column for column; nullable columns are optional. */
  datatype Row = Row(
    author: Option<string>,
    bodyHtml: Option<string>,
    bodyRaw: Option<string>,
    createdAt: Option<string>,
    date: string,
    featuredImage: Option<string>,
    generatedAiContent: Option<string>,
    id: int,
    originalUrl: Option<string>,
    questionsAndAnswers: Option<Json>,
    subtitle: Option<string>,
    title: string,
    topics: Option<seq<string>>,
    category: Option<string>,  // the `type` column
    url: Option<string>,
    urlSegment: Option<string>,
    userId: string)

  /** The payload of `create`, inserted as it is. */
  datatype Draft = Draft(
    author: string,
    title: string,
    subtitle: string,
    featuredImage: string,
    date: string,
    bodyRaw: string,
    category: string,  // the `type` field
    topics: seq<string>,
    urlSegment: string,
    originalUrl: string,
    generatedAiContent: string,
    questionsAndAnswers: seq<QuestionAnswer>,
    userId: string)

  /** The payload of `update`: only the questions and answers can change. */
  datatype ArticleUpdate = ArticleUpdate(questionsAndAnswers: Option<seq<QuestionAnswer>>)

  datatype StoreError = StoreError(message: string, code: string)

  /** The reply to one store call: `{data, error}`, or a rejection of the call itself. */
  datatype Resp<T> = Reply(data: Option<T>, error: Option<StoreError>) | Threw(thrown: Thrown)

  /** A call the service makes on the store: obtaining a client scoped to a token, or a query. */
  datatype Call =
    | GetClient(token: string)
    | SelectById(id: string)
    | SelectByUser(userId: string)
    | SelectDuplicates(title: string, userId: string)
    | Insert(draft: Draft)
    | UpdateById(id: string, patch: ArticleUpdate)
    | DeleteById(id: string)

  /** `{success, message}`, what create, update and delete resolve to. */
  datatype Ack = Ack(success: bool, message: string)

  /** How an operation ends, and the store calls it issued on the way, in order. */
  datatype Run<T> = Run(outcome: Outcome<T>, calls: seq<Call>)

  /** The store's error code for "no rows", which the duplicate check tolerates. */
  const NO_ROWS := "PGRST116"

  /** Reading `.id` of a null reply is a TypeError: not an HttpException. */
  const NULL_ID_READ := "TypeError: cannot read properties of null (reading 'id')"

  /** "Article #<id> <verb> successfully", the id rendered in decimal. */
  function AckMessage(id: int, verb: string): (m: string)
    ensures |m| >= 9 + |verb| + 14 && m[..9] == "Article #" && m[|m| - |verb| - 14..] == " " + verb + " successfully"
    ensures var digits := m[9..|m| - |verb| - 14];
      && digits == IntToString(id) && ParseInt(digits) == id
  {
    var digits, tail := IntToString(id), " " + verb + " successfully";
    IntToStringRoundTrip(id);
    ThreeParts("Article #", digits, tail);
    "Article #" + digits + tail
  }

  /** A success message names its article: different ids never give the same message. */
  lemma AckMessageNamesArticle(a: int, b: int, verb: string)
    requires AckMessage(a, verb) == AckMessage(b, verb)
    ensures a == b
  {
    var prefix, suffix := "Article #", " " + verb + " successfully";
    var sa, sb := IntToString(a), IntToString(b);
    assert AckMessage(a, verb) == prefix + sa + suffix;
    assert AckMessage(b, verb) == prefix + sb + suffix;
    assert |sa| == |sb|;
    assert sa == (prefix + sa + suffix)[|prefix|..|prefix| + |sa|];
    assert sb == (prefix + sb + suffix)[|prefix|..|prefix| + |sb|];
    IntToStringInjective(a, b);
  }

  // ---- getArticleById ----

  /** The body of the `try` once the client is obtained: one row or a typed error. */
  function FetchOne(id: string, reply: Resp<Row>): Step<Row>
  {
    match reply
    case Threw(t) => Throw(t)
    case Reply(data, error) =>
      if error.Some? then Throw(Raised(DatabaseException(error.value.message)))
      else if data.None? then Throw(Raised(FrameworkNotFoundException("Article with id " + id + " not found")))
      else Return(data.value)
  }

  function GetArticleById(id: string, token: string, reply: Resp<Row>): (r: Run<Row>)
    ensures id == "" ==> r.calls == [] && r.outcome == Err(HttpException("Article ID is required", 400))
    ensures id != "" ==> r.calls == [GetClient(token), SelectById(id)]
    ensures id != "" && reply.Reply? && reply.error.Some? ==>
              r.outcome == Err(DatabaseException(reply.error.value.message))
    ensures id != "" && reply == Reply(None, None) ==>
              r.outcome == Err(FrameworkNotFoundException("Article with id " + id + " not found"))
    ensures r.outcome.Ok? <==> id != "" && reply.Reply? && reply.error.None? && reply.data.Some?
    ensures r.outcome.Ok? ==> r.outcome.value == reply.data.value
  {
    if id == "" then
      Run(TryCatch(Throw(Raised(HttpException("Article ID is required", BAD_REQUEST)))), [])
    else
      Run(TryCatch(FetchOne(id, reply)), [GetClient(token), SelectById(id)])
  }

  // ---- getArticlesByUserId ----

  function FetchByUser(reply: Resp<seq<Row>>): Step<seq<Row>>
  {
    match reply
    case Threw(t) => Throw(t)
    case Reply(data, error) =>
      if error.Some? then Throw(Raised(DatabaseException(error.value.message)))
      else Return(if data.Some? then data.value else [])
  }

  function GetArticlesByUserId(userId: string, token: string, reply: Resp<seq<Row>>): (r: Run<seq<Row>>)
    ensures userId == "" ==> r.calls == [] && r.outcome == Err(HttpException("User ID is required", 400))
    ensures userId != "" ==> r.calls == [GetClient(token), SelectByUser(userId)]
    ensures userId != "" && reply.Reply? && reply.error.Some? ==>
              r.outcome == Err(DatabaseException(reply.error.value.message))
    ensures r.outcome.Ok? <==> userId != "" && reply.Reply? && reply.error.None?
    ensures r.outcome.Ok? && reply.data.Some? ==> r.outcome.value == reply.data.value
    ensures r.outcome.Ok? && reply.data.None? ==> r.outcome.value == []
  {
    if userId == "" then
      Run(TryCatch(Throw(Raised(HttpException("User ID is required", BAD_REQUEST)))), [])
    else
      Run(TryCatch(FetchByUser(reply)), [GetClient(token), SelectByUser(userId)])
  }

  // ---- create ----

  /** The duplicate check on (title, user): a store error other than "no rows" fails, and so does any reply but `[]`. */
  function CheckDuplicates(check: Resp<seq<Row>>): Step<()>
  {
    match check
    case Threw(t) => Throw(t)
    case Reply(existing, error) =>
      if error.Some? && error.value.code != NO_ROWS then Throw(Raised(DatabaseException(error.value.message)))
      else if existing != Some([]) then Throw(Raised(FrameworkConflictException("Article already exists")))
      else Return(())
  }

  function InsertDraft(insert: Resp<int>): Step<Ack>
  {
    match insert
    case Threw(t) => Throw(t)
    case Reply(created, error) =>
      if error.Some? then Throw(Raised(DatabaseException(error.value.message)))
      else if created.None? then Throw(Fault(NULL_ID_READ))
      else Return(Ack(true, AckMessage(created.value, "created")))
  }

  /** The duplicate check lets the insert through: an empty list, with no error or only the "no rows" error. */
  predicate DuplicateCheckPasses(check: Resp<seq<Row>>)
  {
    check.Reply? && check.data == Some([]) && (check.error.None? || check.error.value.code == NO_ROWS)
  }

  function CreateArticle(draft: Draft, userId: string, token: string,
                         check: Resp<seq<Row>>, insert: Resp<int>): (r: Run<Ack>)
    ensures userId != draft.userId ==> r.calls == [] && r.outcome == Err(UnauthorizedException("User ID mismatch"))
    ensures userId == draft.userId ==>
              |r.calls| >= 2 && r.calls[..2] == [GetClient(token), SelectDuplicates(draft.title, userId)]
    ensures Insert(draft) in r.calls <==> userId == draft.userId && DuplicateCheckPasses(check)
    ensures userId == draft.userId && !DuplicateCheckPasses(check) ==>
              r.calls == [GetClient(token), SelectDuplicates(draft.title, userId)]
    ensures r.outcome.Ok? <==>
              userId == draft.userId && DuplicateCheckPasses(check)
              && insert.Reply? && insert.error.None? && insert.data.Some?
    ensures r.outcome.Ok? ==> r.outcome.value == Ack(true, AckMessage(insert.data.value, "created"))
  {
    if userId != draft.userId then
      Run(TryCatch(Throw(Raised(UnauthorizedException("User ID mismatch")))), [])
    else
      var checked := [GetClient(token), SelectDuplicates(draft.title, userId)];
      match CheckDuplicates(check)
      case Throw(t) => Run(TryCatch(Throw(t)), checked)
      case Return(_) => Run(TryCatch(InsertDraft(insert)), checked + [Insert(draft)])
  }

  // ---- update and delete ----

  /** The reply of an update or delete by id; an empty store message falls back to `failure + id`. */
  function WriteById(reply: Resp<int>, id: string, failure: string, verb: string): Step<Ack>
  {
    match reply
    case Threw(t) => Throw(t)
    case Reply(data, error) =>
      if error.Some? then
        Throw(Raised(DatabaseException(if error.value.message != "" then error.value.message else failure + id)))
      else if data.None? then Throw(Fault(NULL_ID_READ))
      else Return(Ack(true, AckMessage(data.value, verb)))
  }

  function UpdateArticle(id: string, patch: ArticleUpdate, token: string, reply: Resp<int>): (r: Run<Ack>)
    ensures r.calls == [GetClient(token), UpdateById(id, patch)]
    ensures reply.Reply? && reply.error.Some? ==>
              r.outcome == Err(DatabaseException(
                if reply.error.value.message == "" then "Error updating article " + id else reply.error.value.message))
    ensures r.outcome.Ok? <==> reply.Reply? && reply.error.None? && reply.data.Some?
    ensures reply == Reply(None, None) ==> r.outcome == Err(InternalServerError())
    ensures reply.Threw? ==> r.outcome == Err(Rethrow(reply.thrown))
    ensures r.outcome.Ok? ==> r.outcome.value == Ack(true, AckMessage(reply.data.value, "updated"))
  {
    Run(TryCatch(WriteById(reply, id, "Error updating article ", "updated")), [GetClient(token), UpdateById(id, patch)])
  }

  function DeleteArticle(id: string, token: string, reply: Resp<int>): (r: Run<Ack>)
    ensures r.calls == [GetClient(token), DeleteById(id)]
    ensures reply.Reply? && reply.error.Some? ==>
              r.outcome == Err(DatabaseException(
                if reply.error.value.message == "" then "Error deleting article " + id else reply.error.value.message))
    ensures r.outcome.Ok? <==> reply.Reply? && reply.error.None? && reply.data.Some?
    ensures reply == Reply(None, None) ==> r.outcome == Err(InternalServerError())
    ensures reply.Threw? ==> r.outcome == Err(Rethrow(reply.thrown))
    ensures r.outcome.Ok? ==> r.outcome.value == Ack(true, AckMessage(reply.data.value, "deleted"))
  {
    Run(TryCatch(WriteById(reply, id, "Error deleting article ", "deleted")), [GetClient(token), DeleteById(id)])
  }

  // ---- properties relating the operations ----

  /** Create's duplicate check: a real store error is a DatabaseException, any list but `[]` a 409; neither inserts. */
  lemma CreateDuplicateCheckFailures(draft: Draft, token: string, check: Resp<seq<Row>>, insert: Resp<int>)
    requires check.Reply?
    ensures var r := CreateArticle(draft, draft.userId, token, check, insert);
      && (check.error.Some? && check.error.value.code != NO_ROWS ==>
            r.outcome == Err(DatabaseException(check.error.value.message)) && Insert(draft) !in r.calls)
      && ((check.error.None? || check.error.value.code == NO_ROWS) && check.data != Some([]) ==>
            r.outcome == Err(FrameworkConflictException("Article already exists")) && r.outcome.error.status == 409
            && Insert(draft) !in r.calls)
  {
  }

  /** Create's insert: a store error is a DatabaseException with the store's message; a null id is internal. */
  lemma CreateInsertFailures(draft: Draft, token: string, check: Resp<seq<Row>>, insert: Resp<int>)
    requires DuplicateCheckPasses(check) && insert.Reply?
    ensures var r := CreateArticle(draft, draft.userId, token, check, insert);
      && r.calls == [GetClient(token), SelectDuplicates(draft.title, draft.userId), Insert(draft)]
      && (insert.error.Some? ==> r.outcome == Err(DatabaseException(insert.error.value.message)))
      && (insert == Reply(None, None) ==> r.outcome == Err(InternalServerError()))
  {
  }

  /**
   * The catch policy, in all five operations: when the store call rejects, an
   * HttpException reaches the caller unchanged and anything else becomes
   * "Internal server error" with status 500.
   */
  lemma ThrownRepliesFollowPolicy(t: Thrown, id: string, userId: string, token: string,
                                  draft: Draft, patch: ArticleUpdate, check: Resp<seq<Row>>, insert: Resp<int>)
    requires id != "" && userId != ""
    ensures GetArticleById(id, token, Threw(t)).outcome == Err(Rethrow(t))
    ensures GetArticlesByUserId(userId, token, Threw(t)).outcome == Err(Rethrow(t))
    ensures CreateArticle(draft, draft.userId, token, Threw(t), insert).outcome == Err(Rethrow(t))
    ensures DuplicateCheckPasses(check) ==> CreateArticle(draft, draft.userId, token, check, Threw(t)).outcome == Err(Rethrow(t))
    ensures UpdateArticle(id, patch, token, Threw(t)).outcome == Err(Rethrow(t))
    ensures DeleteArticle(id, token, Threw(t)).outcome == Err(Rethrow(t))
    ensures t.Raised? ==> Rethrow(t) == t.error
    ensures t.Fault? ==> Rethrow(t) == InternalServerError()
  {
  }

  /**
   * Update and delete have no empty-id guard: the store is queried with "" and
   * decides the outcome. A store error with no message falls back to the bare
   * prefix, a thrown HttpException passes through, and any other thrown
   * failure is the internal error.
   */
  lemma EmptyIdReachesStore(patch: ArticleUpdate, token: string, reply: Resp<int>, description: string, code: string)
    ensures UpdateById("", patch) in UpdateArticle("", patch, token, reply).calls
    ensures DeleteById("") in DeleteArticle("", token, reply).calls
    ensures UpdateArticle("", patch, token, Reply(None, Some(StoreError("", code)))).outcome
              == Err(DatabaseException("Error updating article "))
    ensures DeleteArticle("", token, Reply(None, Some(StoreError("", code)))).outcome
              == Err(DatabaseException("Error deleting article "))
    ensures reply.Threw? && reply.thrown.Raised? ==>
              UpdateArticle("", patch, token, reply).outcome == Err(reply.thrown.error)
              && DeleteArticle("", token, reply).outcome == Err(reply.thrown.error)
    ensures UpdateArticle("", patch, token, Threw(Fault(description))).outcome == Err(InternalServerError())
    ensures DeleteArticle("", token, Threw(Fault(description))).outcome == Err(InternalServerError())
  {
    assert "Error updating article " + "" == "Error updating article ";
    assert "Error deleting article " + "" == "Error deleting article ";
  }

  /** The stateful service: its log is the sequence of store calls it has issued. */
  class ArticlesService {
    ghost var log: seq<Call>

    constructor ()
      ensures log == []
    {
      log := [];
    }

    method Create(draft: Draft, userId: string, token: string,
                  check: Resp<seq<Row>>, insert: Resp<int>) returns (r: Outcome<Ack>)
      modifies this
      ensures r == CreateArticle(draft, userId, token, check, insert).outcome
      ensures log == old(log) + CreateArticle(draft, userId, token, check, insert).calls
    {
      if userId != draft.userId {
        return Err(UnauthorizedException("User ID mismatch"));
      }
      log := log + [GetClient(token)];
      log := log + [SelectDuplicates(draft.title, userId)];
      var rejected := RejectDuplicate(check);
      if rejected.Some? {
        return Err(rejected.value);
      }
      log := log + [Insert(draft)];
      r := SettleInsert(insert);
    }

    /** The duplicate check: the exception that stops the create, if any. */
    static method RejectDuplicate(check: Resp<seq<Row>>) returns (e: Option<HttpError>)
      ensures check.Threw? ==> e == Some(Rethrow(check.thrown))
      ensures check.Reply? && check.error.Some? && check.error.value.code != NO_ROWS ==>
                e == Some(DatabaseException(check.error.value.message))
      ensures check.Reply? && (check.error.None? || check.error.value.code == NO_ROWS) && check.data != Some([]) ==>
                e == Some(FrameworkConflictException("Article already exists")) && e.value.status == 409
      ensures e.None? <==> DuplicateCheckPasses(check)
      ensures e.Some? ==> TryCatch(CheckDuplicates(check)) == Err(e.value)
    {
      match check {
        case Threw(t) =>
          return Some(Rethrow(t));
        case Reply(existing, checkError) =>
          if checkError.Some? && checkError.value.code != NO_ROWS {
            return Some(DatabaseException(checkError.value.message));
          }
          if existing != Some([]) {
            return Some(FrameworkConflictException("Article already exists"));
          }
      }
      return None;
    }

    /** Maps the reply of the insert to the outcome of a create. */
    static method SettleInsert(insert: Resp<int>) returns (r: Outcome<Ack>)
      ensures insert.Threw? ==> r == Err(Rethrow(insert.thrown))
      ensures insert.Reply? && insert.error.Some? ==> r == Err(DatabaseException(insert.error.value.message))
      ensures insert == Reply(None, None) ==> r == Err(InternalServerError())
      ensures r.Ok? <==> insert.Reply? && insert.error.None? && insert.data.Some?
      ensures r.Ok? ==> r.value == Ack(true, AckMessage(insert.data.value, "created"))
      ensures r == TryCatch(InsertDraft(insert))
    {
      match insert {
        case Threw(t) =>
          r := Err(Rethrow(t));
        case Reply(created, insertError) =>
          if insertError.Some? {
            r := Err(DatabaseException(insertError.value.message));
          } else if created.None? {
            r := Err(InternalServerError());
          } else {
            r := Ok(Ack(true, AckMessage(created.value, "created")));
          }
      }
    }

    method Update(id: string, patch: ArticleUpdate, token: string, reply: Resp<int>) returns (r: Outcome<Ack>)
      modifies this
      ensures r == UpdateArticle(id, patch, token, reply).outcome
      ensures log == old(log) + UpdateArticle(id, patch, token, reply).calls
    {
      log := log + [GetClient(token)];
      log := log + [UpdateById(id, patch)];
      r := Settle(reply, id, "Error updating article ", "updated");
    }

    method Delete(id: string, token: string, reply: Resp<int>) returns (r: Outcome<Ack>)
      modifies this
      ensures r == DeleteArticle(id, token, reply).outcome
      ensures log == old(log) + DeleteArticle(id, token, reply).calls
    {
      log := log + [GetClient(token)];
      log := log + [DeleteById(id)];
      r := Settle(reply, id, "Error deleting article ", "deleted");
    }

    /** Maps the reply of an update or delete to the operation's outcome. */
    static method Settle(reply: Resp<int>, id: string, failure: string, verb: string) returns (r: Outcome<Ack>)
      ensures reply.Threw? ==> r == Err(Rethrow(reply.thrown))
      ensures reply.Reply? && reply.error.Some? ==>
                r == Err(DatabaseException(
                  if reply.error.value.message == "" then failure + id else reply.error.value.message))
      ensures reply == Reply(None, None) ==> r == Err(InternalServerError())
      ensures r.Ok? <==> reply.Reply? && reply.error.None? && reply.data.Some?
      ensures r.Ok? ==> r.value == Ack(true, AckMessage(reply.data.value, verb))
      ensures r == TryCatch(WriteById(reply, id, failure, verb))
    {
      match reply {
        case Threw(t) =>
          r := Err(Rethrow(t));
        case Reply(data, error) =>
          if error.Some? {
            var message := if error.value.message != "" then error.value.message else failure + id;
            r := Err(DatabaseException(message));
          } else if data.None? {
            r := Err(InternalServerError());
          } else {
            r := Ok(Ack(true, AckMessage(data.value, verb)));
          }
      }
    }
  }
}
