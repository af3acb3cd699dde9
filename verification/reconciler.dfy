/** The reconciliation engine of `App.tsx`: the load/fallback/seed protocol that
    decides where the roster and the catalog come from, the mutation handlers
    that apply changes in memory and route writes to the remote backend, and the
    effects that mirror state into local storage. Every handler is one atomic
    transition; the replies of remote calls are parameters, and a `Step` reports
    the remote requests the transition sent, in order. */
module Reconciler {
  import opened Base
  import opened Types
  import opened Constants
  import opened Collections
  import opened LocalStore
  import opened SupabaseService

  /** The warning shown when the remote tables do not exist. */
  const TablesMissingMessage: string := "Supabase Tables Missing! Falling back to Local Storage."

  /** The configuration the application starts from when none is saved. */
  const InitialConfig: CloudConfig := CloudConfig(
    "FamilyVault",
    StorageConfig(Some(""), Some(""), Some("")),
    DatabaseConfig(Supabase, Some("https://hqjbexdjpyslxrzzaevm.supabase.co"),
                   Some("sb_publishable_jxx9vOKPbAH_nQYbUrfeKA_X88JrZAA")),
    true)

  /** The application's state: the in-memory roster, catalog and configuration, the warning
      banner, local storage, the signed-in profile, whether start-up is still running, and the
      remote client handle. */
  datatype State = State(
    users: seq<User>,
    media: seq<MediaItem>,
    config: CloudConfig,
    dbError: Option<string>,
    store: Store,
    currentUser: Option<User>,
    initializing: bool,
    client: Client)

  /** A transition's resulting state and the remote requests it sent. */
  datatype Step = Step(state: State, requests: seq<Request>)

  /** Everything the remote side answers during one load: whether client construction throws,
      the two list replies, and the replies to the seeding upserts (missing ones succeed). */
  datatype RemoteReplies = RemoteReplies(
    createThrows: bool,
    users: QueryReply<User>,
    media: QueryReply<MediaItem>,
    seed: seq<WriteReply>)

  /** The state before the start-up effect has run. */
  function Boot(store: Store): State {
    State([], [], InitialConfig, None, store, None, true, NoClient)
  }

  /** Mutations write to the remote tables: the configured provider is the remote one and no
      warning is showing. Whether the client actually exists is not consulted. */
  predicate RemoteWritesRouted(s: State) {
    s.config.database.provider == Supabase && s.dbError.None?
  }

  /** Roster and catalog are copied to local storage: start-up is over and the configured
      provider is the local one (not the mode the last load ended in). */
  predicate MirrorsLocally(s: State) {
    !s.initializing && s.config.database.provider == Local
  }

  /** The storage slots agree with memory wherever the mirroring effects are active. */
  predicate Mirrored(s: State) {
    && (MirrorsLocally(s) ==> SavedUsers(s.store) == Some(s.users) && SavedMedia(s.store) == Some(s.media))
    && (!s.initializing ==> SavedConfig(s.store) == Some(s.config))
  }

  /** The three persistence effects, run after a transition. */
  function Mirror(s: State): (t: State)
    ensures Mirrored(t)
    ensures t.(store := s.store) == s
    ensures !MirrorsLocally(s) ==>
      SavedUsers(t.store) == SavedUsers(s.store) && SavedMedia(t.store) == SavedMedia(s.store)
    ensures SavedSession(t.store) == SavedSession(s.store)
    ensures s.initializing ==> t == s
    ensures WellTyped(s.store) ==> WellTyped(t.store)
  {
    if s.initializing then s
    else
      var st := if s.config.database.provider == Local then PutMedia(PutUsers(s.store, s.users), s.media) else s.store;
      s.(store := PutConfig(st, s.config))
  }

  /** `loadLocalData`: adopt the saved catalog if any (otherwise keep the one in memory), adopt
      the saved roster if any, otherwise seed the default roster and save it. */
  function LoadLocalData(s: State): (t: State)
    ensures t == s.(users := t.users, media := t.media, store := t.store)
    ensures t.media == (if SavedMedia(s.store).Some? then SavedMedia(s.store).value else s.media)
    ensures SavedUsers(s.store).Some? ==> t.users == SavedUsers(s.store).value && t.store == s.store
    ensures SavedUsers(s.store).None? ==> t.users == InitialUsers()
    ensures SavedUsers(t.store) == Some(t.users)
    ensures SavedMedia(t.store) == SavedMedia(s.store) && SavedConfig(t.store) == SavedConfig(s.store)
    ensures SavedSession(t.store) == SavedSession(s.store)
    ensures WellTyped(s.store) ==> WellTyped(t.store)
  {
    var media := SavedMedia(s.store).GetOr(s.media);
    match SavedUsers(s.store)
    case Some(users) => s.(media := media, users := users)
    case None => s.(media := media, users := InitialUsers(), store := PutUsers(s.store, InitialUsers()))
  }

  /** The reply to the `i`-th seeding upsert; replies not supplied succeed. */
  function ReplyAt(replies: seq<WriteReply>, i: nat): WriteReply {
    if i < |replies| then replies[i] else Written
  }

  /** The seeding loop: upsert each user in turn; the first thrown error ends the loop. */
  function SeedUsers(client: Client, users: seq<User>, replies: seq<WriteReply>): (sent: seq<Request>)
    ensures client.NoClient? ==> sent == []
    ensures client.Connected? ==> |sent| <= |users|
    ensures client.Connected? ==> forall k :: 0 <= k < |sent| ==> sent[k] == UpsertUser(users[k])
    ensures forall k :: 0 <= k < |sent| - 1 ==> ReplyAt(replies, k).Written?
    ensures client.Connected? && |sent| < |users| ==> |sent| > 0 && ReplyAt(replies, |sent| - 1).Refused?
    ensures client.Connected? && users != [] ==> |sent| > 0
    decreases |users|
  {
    if users == [] then []
    else
      var w := SaveUser(client, users[0], ReplyAt(replies, 0));
      var rest := if |replies| > 0 then replies[1..] else [];
      assert forall k: nat :: ReplyAt(rest, k) == ReplyAt(replies, k + 1);
      if w.raised.Some? then Sent(w)
      else
        var tail := SeedUsers(client, users[1..], rest);
        assert forall k :: 1 <= k < |tail| ==> ReplyAt(replies, k) == ReplyAt(rest, k - 1);
        Sent(w) + tail
  }

  /** The users reply carries a non-empty roster, which is adopted verbatim. */
  predicate UsersAdopted(reply: QueryReply<User>) {
    reply.Replied? && reply.error.None? && reply.data.Some? && |reply.data.value| > 0
  }

  /** The media reply carries a catalog (possibly empty), which is adopted. */
  predicate MediaAdopted(reply: QueryReply<MediaItem>) {
    reply.Replied? && reply.error.None? && reply.data.Some?
  }

  /** The users reply reports the remote tables as missing. */
  predicate TablesMissing(reply: QueryReply<User>) {
    reply.Replied? && reply.error.Some? && IsTableMissingError(reply.error.value)
  }

  /** `loadData(config)`: clear the warning, build the client; without a client load locally;
      with one, read both tables, fall back to the local load when the tables are missing,
      otherwise adopt the remote roster (or seed the default roster when it is empty or
      unreadable) and the remote catalog when one came back. */
  function LoadData(s: State, config: CloudConfig, remote: RemoteReplies): (r: Step)
    ensures r.state.config == s.config && r.state.currentUser == s.currentUser
    ensures r.state.initializing == s.initializing
    ensures r.state.client == InitSupabase(config, remote.createThrows)
    ensures r.state.client.NoClient? ==>
      r.requests == [] && r.state == LoadLocalData(s.(dbError := None, client := NoClient))
    ensures r.state.client.Connected? ==>
      |r.requests| >= 2 && r.requests[0] == Select(UsersTable, false) && r.requests[1] == Select(MediaTable, true)
    ensures r.state.dbError.Some? <==> r.state.client.Connected? && TablesMissing(remote.users)
    ensures r.state.dbError.Some? ==>
      r.state.dbError.value == TablesMissingMessage && |r.requests| == 2
      && r.state == LoadLocalData(s.(dbError := r.state.dbError, client := r.state.client))
    ensures r.state.client.Connected? && !TablesMissing(remote.users) ==>
      && r.state.store == s.store
      && r.state.media == (if MediaAdopted(remote.media) then remote.media.data.value else s.media)
    ensures r.state.client.Connected? && UsersAdopted(remote.users) ==>
      r.state.users == remote.users.data.value && |r.requests| == 2
    ensures r.state.client.Connected? && !TablesMissing(remote.users) && !UsersAdopted(remote.users) ==>
      r.state.users == InitialUsers() && |r.requests| == 3 && r.requests[2] == UpsertUser(InitialUsers()[0])
    ensures WellTyped(s.store) ==> WellTyped(r.state.store)
  {
    var client := InitSupabase(config, remote.createThrows);
    var s1 := s.(dbError := None, client := client);
    if client.NoClient? then Step(LoadLocalData(s1), [])
    else
      var userRes := GetUsers(client, remote.users);
      var mediaRes := GetMedia(client, remote.media);
      var selects := [userRes.request.value, mediaRes.request.value];
      if userRes.result.errorType == Some(MissingTables) then
        Step(LoadLocalData(s1.(dbError := Some(TablesMissingMessage))), selects)
      else
        var data := userRes.result.data;
        var media := mediaRes.result.data.GetOr(s.media);
        if data.Some? && |data.value| > 0 then
          Step(s1.(users := data.value, media := media), selects)
        else
          Step(s1.(users := InitialUsers(), media := media), selects + SeedUsers(client, InitialUsers(), remote.seed))
  }

  /** The start-up effect: take the saved configuration (or the built-in one), load, restore the
      saved session profile as stored, end initialisation, and let the effects persist. */
  function Startup(store: Store, remote: RemoteReplies): (r: Step)
    ensures r.state.config == SavedConfig(store).GetOr(InitialConfig)
    ensures r.state.currentUser == SavedSession(store)
    ensures !r.state.initializing && Mirrored(r.state)
    ensures r.requests == LoadData(Boot(store).(config := r.state.config), r.state.config, remote).requests
    ensures var l := LoadData(Boot(store).(config := r.state.config), r.state.config, remote).state;
      && r.state.users == l.users && r.state.media == l.media
      && r.state.dbError == l.dbError && r.state.client == l.client
    ensures WellTyped(store) ==> WellTyped(r.state.store)
  {
    var conf := SavedConfig(store).GetOr(InitialConfig);
    var loaded := LoadData(Boot(store).(config := conf), conf, remote);
    var t := loaded.state;
    var session := SavedSession(t.store);
    Step(Mirror(t.(currentUser := session, initializing := false)), loaded.requests)
  }

  /** `handleAddUser`: upsert in memory, send the upsert when routed (its error is swallowed),
      refresh the session profile when the signed-in user was edited. */
  function HandleAddUser(s: State, user: User, reply: WriteReply): (r: Step)
    ensures r.state.users == UpsertById(s.users, UserId, user)
    ensures r.state.(users := s.users, store := s.store, currentUser := s.currentUser) == s
    ensures r.requests != [] <==> RemoteWritesRouted(s) && s.client.Connected?
    ensures r.requests != [] ==> r.requests == [UpsertUser(user)]
    ensures s.currentUser.Some? && s.currentUser.value.id == user.id ==>
      r.state.currentUser == Some(user) && SavedSession(r.state.store) == Some(user)
    ensures !(s.currentUser.Some? && s.currentUser.value.id == user.id) ==>
      r.state.currentUser == s.currentUser && SavedSession(r.state.store) == SavedSession(s.store)
    ensures !MirrorsLocally(s) ==>
      SavedUsers(r.state.store) == SavedUsers(s.store) && SavedMedia(r.state.store) == SavedMedia(s.store)
    ensures Mirrored(r.state)
    ensures WellTyped(s.store) ==> WellTyped(r.state.store)
  {
    var sent := if RemoteWritesRouted(s) then Sent(SaveUser(s.client, user, reply)) else [];
    var t := s.(users := UpsertById(s.users, UserId, user));
    var t' := if s.currentUser.Some? && s.currentUser.value.id == user.id
              then t.(currentUser := Some(user), store := PutSession(t.store, user))
              else t;
    Step(Mirror(t'), sent)
  }

  /** `handleDeleteUser`: the root administrator is refused before anything happens; otherwise,
      once confirmed, every entry with the id is removed and the delete is sent when routed. */
  function HandleDeleteUser(s: State, id: string, confirmed: bool, reply: WriteReply): (r: Step)
    ensures id == RootAdminId || !confirmed ==> r == Step(s, [])
    ensures id != RootAdminId && confirmed ==>
      && r.state.users == RemoveById(s.users, UserId, id)
      && r.state.(users := s.users, store := s.store) == s
      && (r.requests != [] <==> RemoteWritesRouted(s) && s.client.Connected?)
      && (r.requests != [] ==> r.requests == [DeleteRow(UsersTable, id)])
      && Mirrored(r.state)
    ensures !MirrorsLocally(s) ==>
      SavedUsers(r.state.store) == SavedUsers(s.store) && SavedMedia(r.state.store) == SavedMedia(s.store)
    ensures WellTyped(s.store) ==> WellTyped(r.state.store)
  {
    if id == RootAdminId || !confirmed then Step(s, [])
    else
      var sent := if RemoteWritesRouted(s) then Sent(DeleteUser(s.client, id, reply)) else [];
      Step(Mirror(s.(users := RemoveById(s.users, UserId, id))), sent)
  }

  /** `handleSaveConfig`: adopt the new configuration, then run the whole load against it. */
  function HandleSaveConfig(s: State, config: CloudConfig, remote: RemoteReplies): (r: Step)
    ensures r.state.config == config
    ensures r.requests == LoadData(s.(config := config), config, remote).requests
    ensures r.state.(store := s.store) == LoadData(s.(config := config), config, remote).state.(store := s.store)
    ensures Mirrored(r.state)
    ensures WellTyped(s.store) ==> WellTyped(r.state.store)
  {
    var loaded := LoadData(s.(config := config), config, remote);
    Step(Mirror(loaded.state), loaded.requests)
  }

  /** `addMediaItem`: the new item goes first; the insert is sent when routed and its error
      is swallowed. */
  function AddMediaItem(s: State, item: MediaItem, reply: WriteReply): (r: Step)
    ensures |r.state.media| == |s.media| + 1 && r.state.media[0] == item && r.state.media[1..] == s.media
    ensures r.state.(media := s.media, store := s.store) == s
    ensures r.requests != [] <==> RemoteWritesRouted(s) && s.client.Connected?
    ensures r.requests != [] ==> r.requests == [InsertMedia(item)]
    ensures !MirrorsLocally(s) ==>
      SavedUsers(r.state.store) == SavedUsers(s.store) && SavedMedia(r.state.store) == SavedMedia(s.store)
    ensures Mirrored(r.state)
    ensures WellTyped(s.store) ==> WellTyped(r.state.store)
  {
    var sent := if RemoteWritesRouted(s) then Sent(SaveMedia(s.client, item, reply)) else [];
    Step(Mirror(s.(media := [item] + s.media)), sent)
  }

  /** `deleteMediaItem`: once confirmed, every item with the id is removed and the delete is
      sent when routed; unconfirmed, nothing happens. */
  function DeleteMediaItem(s: State, id: string, confirmed: bool, reply: WriteReply): (r: Step)
    ensures !confirmed ==> r == Step(s, [])
    ensures confirmed ==>
      && r.state.media == RemoveById(s.media, ItemId, id)
      && r.state.(media := s.media, store := s.store) == s
      && (r.requests != [] <==> RemoteWritesRouted(s) && s.client.Connected?)
      && (r.requests != [] ==> r.requests == [DeleteRow(MediaTable, id)])
      && Mirrored(r.state)
    ensures !MirrorsLocally(s) ==>
      SavedUsers(r.state.store) == SavedUsers(s.store) && SavedMedia(r.state.store) == SavedMedia(s.store)
    ensures WellTyped(s.store) ==> WellTyped(r.state.store)
  {
    if !confirmed then Step(s, [])
    else
      var sent := if RemoteWritesRouted(s) then Sent(DeleteMedia(s.client, id, reply)) else [];
      Step(Mirror(s.(media := RemoveById(s.media, ItemId, id))), sent)
  }

  /** `handleUserSelect`: sign in and remember the profile. */
  function HandleUserSelect(s: State, user: User): (t: State)
    ensures t.currentUser == Some(user) && SavedSession(t.store) == Some(user)
    ensures t.(currentUser := s.currentUser, store := s.store) == s
    ensures Mirrored(s) ==> Mirrored(t)
    ensures WellTyped(s.store) ==> WellTyped(t.store)
  {
    s.(currentUser := Some(user), store := PutSession(s.store, user))
  }

  /** `handleLogout`: sign out and forget the profile. */
  function HandleLogout(s: State): (t: State)
    ensures t.currentUser.None? && SavedSession(t.store).None?
    ensures t.(currentUser := s.currentUser, store := s.store) == s
    ensures Mirrored(s) ==> Mirrored(t)
    ensures WellTyped(s.store) ==> WellTyped(t.store)
  {
    s.(currentUser := None, store := RemoveSession(s.store))
  }

  /** Some entry of the roster is the root administrator. */
  predicate RootPresent(users: seq<User>) {
    exists k :: 0 <= k < |users| && users[k].id == RootAdminId
  }

  /** A remote write's outcome never changes what is in memory or in local storage: the state after
      each mutation is the same whatever the remote side answers. */
  lemma WriteFailureNeverRollsBack(s: State, user: User, item: MediaItem, id: string, confirmed: bool,
                                   reply1: WriteReply, reply2: WriteReply)
    ensures HandleAddUser(s, user, reply1).state == HandleAddUser(s, user, reply2).state
    ensures HandleDeleteUser(s, id, confirmed, reply1).state == HandleDeleteUser(s, id, confirmed, reply2).state
    ensures AddMediaItem(s, item, reply1).state == AddMediaItem(s, item, reply2).state
    ensures DeleteMediaItem(s, id, confirmed, reply1).state == DeleteMediaItem(s, id, confirmed, reply2).state
  {
  }

  /** Once present, the root administrator stays in the roster through every roster mutation. */
  lemma RootAdminSurvives(s: State, user: User, id: string, confirmed: bool, reply: WriteReply)
    requires RootPresent(s.users)
    ensures RootPresent(HandleAddUser(s, user, reply).state.users)
    ensures RootPresent(HandleDeleteUser(s, id, confirmed, reply).state.users)
  {
    var k :| 0 <= k < |s.users| && s.users[k].id == RootAdminId;
    var added := HandleAddUser(s, user, reply).state.users;
    var i := FindIndex(s.users, UserId, user.id);
    if i >= 0 && i == k {
      assert added[k].id == RootAdminId;
    } else {
      assert added[k] == s.users[k];
    }
    if id != RootAdminId && confirmed {
      var kept := RemoveById(s.users, UserId, id);
      assert s.users[k] in kept;
      var j :| 0 <= j < |kept| && kept[j] == s.users[k];
      assert HandleDeleteUser(s, id, confirmed, reply).state.users[j].id == RootAdminId;
    }
  }

  /** After the missing-tables fallback the configured provider is still the remote one, so a new
      catalog item is neither sent to the remote side nor mirrored locally: it lives in memory only. */
  lemma FallbackItemsReachNoBackend(s: State, item: MediaItem, reply: WriteReply)
    requires s.config.database.provider == Supabase && s.dbError.Some?
    ensures AddMediaItem(s, item, reply).requests == []
    ensures SavedMedia(AddMediaItem(s, item, reply).state.store) == SavedMedia(s.store)
    ensures AddMediaItem(s, item, reply).state.media[0] == item
  {
  }

  /** With the remote provider configured but no client (a malformed URL or key), writes are routed
      to the remote side, find no client, and are not mirrored either. */
  lemma UnconfiguredRemoteWritesNowhere(s: State, item: MediaItem, user: User, reply: WriteReply)
    requires s.config.database.provider == Supabase && s.client.NoClient?
    ensures AddMediaItem(s, item, reply).requests == []
    ensures SavedMedia(AddMediaItem(s, item, reply).state.store) == SavedMedia(s.store)
    ensures HandleAddUser(s, user, reply).requests == []
    ensures SavedUsers(HandleAddUser(s, user, reply).state.store) == SavedUsers(s.store)
  {
  }

  /** With the local provider configured, a load never contacts the remote side: it is exactly the
      local load, and on an empty store it yields the default roster and saves it. */
  lemma LocalModeNeverContactsRemote(s: State, config: CloudConfig, remote: RemoteReplies)
    requires config.database.provider == Local
    ensures LoadData(s, config, remote).requests == []
    ensures LoadData(s, config, remote).state == LoadLocalData(s.(dbError := None, client := NoClient))
    ensures SavedUsers(s.store).None? ==>
      LoadData(s, config, remote).state.users == InitialUsers()
      && SavedUsers(LoadData(s, config, remote).state.store) == Some(InitialUsers())
  {
  }

  /** A user read failing for any reason other than missing tables still counts as an empty roster:
      the default roster is adopted and the root administrator is upserted to the remote side. */
  lemma OtherReadErrorSeedsDefaultRoster(s: State, config: CloudConfig, remote: RemoteReplies)
    requires InitSupabase(config, remote.createThrows).Connected?
    requires remote.users.Threw? || (remote.users.Replied? && remote.users.error.Some? && !IsTableMissingError(remote.users.error.value))
    ensures LoadData(s, config, remote).state.users == InitialUsers()
    ensures LoadData(s, config, remote).state.dbError.None?
    ensures UpsertUser(InitialUsers()[0]) in LoadData(s, config, remote).requests
  {
    var r := LoadData(s, config, remote);
    assert r.requests[2] == UpsertUser(InitialUsers()[0]);
  }

  /** With missing remote tables the roster, catalog and local storage end up exactly as if the
      local provider had been configured; only the warning differs. */
  lemma MissingTablesBehavesLikeLocal(s: State, config: CloudConfig, remote: RemoteReplies)
    requires InitSupabase(config, remote.createThrows).Connected? && TablesMissing(remote.users)
    ensures var viaRemote := LoadData(s, config, remote).state;
            var local := config.(database := config.database.(provider := Local));
            var viaLocal := LoadData(s, local, remote).state;
            && viaRemote.users == viaLocal.users && viaRemote.media == viaLocal.media
            && viaRemote.store == viaLocal.store
            && viaRemote.dbError == Some(TablesMissingMessage) && viaLocal.dbError.None?
  {
    var local := config.(database := config.database.(provider := Local));
    assert InitSupabase(local, remote.createThrows).NoClient?;
  }

  /** Loading twice with the same configuration and the same remote answers leaves the same state
      as loading once. */
  lemma LoadDataIdempotent(s: State, config: CloudConfig, remote: RemoteReplies)
    ensures var once := LoadData(s, config, remote).state;
            LoadData(once, config, remote).state == once
  {
    var once := LoadData(s, config, remote).state;
    var twice := LoadData(once, config, remote).state;
    if once.client.Connected? && !TablesMissing(remote.users) {
      assert twice.media == once.media;
      assert twice.users == once.users;
    }
  }
}
