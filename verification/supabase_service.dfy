/** The remote structured-data adapter: client construction from the
    configuration, the missing-table classifier, and list/save/delete over the
    `users` and `media_items` tables. The client library is an oracle whose
    replies are parameters; each call reports the request it sent. */
module SupabaseService {
  import opened Base
  import opened Strings
  import opened Types

  /** The module-level client handle: absent, or built from a project URL and an anon key. */
  datatype Client = NoClient | Connected(url: string, anonKey: string)

  /** `users` and `media_items`. */
  datatype Table = UsersTable | MediaTable

  /** A request sent through the client. */
  datatype Request =
    | Select(table: Table, newestFirst: bool)
    | UpsertUser(user: User)
    | InsertMedia(item: MediaItem)
    | DeleteRow(table: Table, id: string)

  /** The error object of a reply; both fields may be missing. */
  datatype DbError = DbError(code: Option<string>, message: Option<string>)

  /** What a query hands back: `{data, error}`, or an exception. */
  datatype QueryReply<T> = Replied(data: Option<seq<T>>, error: Option<DbError>) | Threw

  /** What a write hands back: no error, or an error object. */
  datatype WriteReply = Written | Refused(error: DbError)

  /** `'missing_tables' | 'other'`. */
  datatype ErrorType = MissingTables | OtherError

  /** `{data, errorType?}` as returned by the list functions. */
  datatype ListResult<T> = ListResult(data: Option<seq<T>>, errorType: Option<ErrorType>)

  datatype Fetch<T> = Fetch(request: Option<Request>, result: ListResult<T>)

  /** The request a write sent and the error it threw, if any. */
  datatype Write = Write(request: Option<Request>, raised: Option<DbError>)

  /** `initSupabase`: a client exists exactly when the provider is `'supabase'`, the URL is a
      non-empty string starting with "http", the key is non-empty and construction did not throw;
      otherwise the handle is reset. */
  function InitSupabase(config: CloudConfig, createThrows: bool): (client: Client)
    ensures client.Connected? <==>
      && config.database.provider == Supabase
      && config.database.supabaseUrl.Some? && |config.database.supabaseUrl.value| >= 4
      && config.database.supabaseUrl.value[..4] == "http"
      && config.database.supabaseAnonKey.Some? && |config.database.supabaseAnonKey.value| > 0
      && !createThrows
    ensures client.Connected? ==>
      client.url == config.database.supabaseUrl.value && client.anonKey == config.database.supabaseAnonKey.value
  {
    var db := config.database;
    if db.provider == Supabase && Truthy(db.supabaseUrl) && StartsWith(db.supabaseUrl.value, "http")
       && Truthy(db.supabaseAnonKey)
    then
      if createThrows then NoClient else Connected(db.supabaseUrl.value, db.supabaseAnonKey.value)
    else NoClient
  }

  /** `isTableMissingError`: code PGRST116, or a message mentioning "cache" or "not find". */
  predicate IsTableMissingError(e: DbError)
    ensures IsTableMissingError(e) <==>
      || e.code == Some("PGRST116")
      || (e.message.Some? && exists i :: OccursAt(e.message.value, "cache", i))
      || (e.message.Some? && exists i :: OccursAt(e.message.value, "not find", i))
  {
    e.code == Some("PGRST116")
    || (e.message.Some? && Contains(e.message.value, "cache"))
    || (e.message.Some? && Contains(e.message.value, "not find"))
  }

  /** The shared shape of `getSupabaseUsers` and `getSupabaseMedia`. */
  function ReadTable<T>(client: Client, request: Request, reply: QueryReply<T>): (r: Fetch<T>)
    ensures client.NoClient? ==> r == Fetch(None, ListResult(None, None))
    ensures client.Connected? ==> r.request == Some(request)
    ensures r.result.errorType.Some? ==> r.result.data.None?
    ensures r.result.errorType == Some(MissingTables) <==>
      client.Connected? && reply.Replied? && reply.error.Some? && IsTableMissingError(reply.error.value)
    ensures client.Connected? && reply.Threw? ==> r.result == ListResult(None, Some(OtherError))
    ensures client.Connected? && reply.Replied? && reply.error.Some? ==>
      r.result == ListResult(None, Some(if IsTableMissingError(reply.error.value) then MissingTables else OtherError))
    ensures client.Connected? && reply.Replied? && reply.error.None? ==> r.result == ListResult(reply.data, None)
  {
    match client
    case NoClient => Fetch(None, ListResult(None, None))
    case Connected(_, _) =>
      match reply
      case Threw => Fetch(Some(request), ListResult(None, Some(OtherError)))
      case Replied(data, error) =>
        if error.Some? then
          Fetch(Some(request), ListResult(None, Some(if IsTableMissingError(error.value) then MissingTables else OtherError)))
        else Fetch(Some(request), ListResult(data, None))
  }

  /** `getSupabaseUsers`: selects every row of `users`. */
  function GetUsers(client: Client, reply: QueryReply<User>): (r: Fetch<User>)
    ensures client.Connected? ==> r.request == Some(Select(UsersTable, false))
    ensures client.NoClient? ==> r.request.None? && r.result.data.None? && r.result.errorType.None?
  {
    ReadTable(client, Select(UsersTable, false), reply)
  }

  /** `getSupabaseMedia`: selects every row of `media_items`, newest timestamp first. */
  function GetMedia(client: Client, reply: QueryReply<MediaItem>): (r: Fetch<MediaItem>)
    ensures client.Connected? ==> r.request == Some(Select(MediaTable, true))
    ensures client.NoClient? ==> r.request.None? && r.result.data.None? && r.result.errorType.None?
  {
    ReadTable(client, Select(MediaTable, true), reply)
  }

  /** `saveSupabaseUser`: an upsert that throws the reply's error. */
  function SaveUser(client: Client, user: User, reply: WriteReply): (w: Write)
    ensures client.NoClient? ==> w == Write(None, None)
    ensures client.Connected? ==> w.request == Some(UpsertUser(user))
    ensures client.Connected? ==> (w.raised.Some? <==> reply.Refused?)
    ensures w.raised.Some? ==> w.raised.value == reply.error
  {
    if client.NoClient? then Write(None, None)
    else Write(Some(UpsertUser(user)), if reply.Refused? then Some(reply.error) else None)
  }

  /** `deleteSupabaseUser`: a delete by id whose error is only logged. */
  function DeleteUser(client: Client, id: string, reply: WriteReply): (w: Write)
    ensures w.raised.None?
    ensures client.NoClient? <==> w.request.None?
    ensures client.Connected? ==> w.request == Some(DeleteRow(UsersTable, id))
  {
    if client.NoClient? then Write(None, None) else Write(Some(DeleteRow(UsersTable, id)), None)
  }

  /** `saveSupabaseMedia`: a plain insert that throws the reply's error. */
  function SaveMedia(client: Client, item: MediaItem, reply: WriteReply): (w: Write)
    ensures client.NoClient? ==> w == Write(None, None)
    ensures client.Connected? ==> w.request == Some(InsertMedia(item))
    ensures client.Connected? ==> (w.raised.Some? <==> reply.Refused?)
    ensures w.raised.Some? ==> w.raised.value == reply.error
  {
    if client.NoClient? then Write(None, None)
    else Write(Some(InsertMedia(item)), if reply.Refused? then Some(reply.error) else None)
  }

  /** `deleteSupabaseMedia`: a delete by id whose error is only logged. */
  function DeleteMedia(client: Client, id: string, reply: WriteReply): (w: Write)
    ensures w.raised.None?
    ensures client.NoClient? <==> w.request.None?
    ensures client.Connected? ==> w.request == Some(DeleteRow(MediaTable, id))
  {
    if client.NoClient? then Write(None, None) else Write(Some(DeleteRow(MediaTable, id)), None)
  }

  /** The request a write sent, as a list. */
  function Sent(w: Write): seq<Request> {
    if w.request.Some? then [w.request.value] else []
  }
}
