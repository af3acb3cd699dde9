/** The browser's local storage as the application uses it: four fixed slots
    holding already-parsed values (serialisation is not modelled). */
module LocalStore {
  import opened Base
  import opened Types
  import opened Constants

  /** A parsed slot value. */
  datatype Blob =
    | UsersBlob(users: seq<User>)
    | MediaBlob(items: seq<MediaItem>)
    | ConfigBlob(config: CloudConfig)
    | SessionBlob(user: User)

  type Store = map<string, Blob>

  /** Every slot the application knows holds the kind of value the application writes there. */
  predicate WellTyped(store: Store) {
    && (UsersKey in store ==> store[UsersKey].UsersBlob?)
    && (StorageKey in store ==> store[StorageKey].MediaBlob?)
    && (ConfigKey in store ==> store[ConfigKey].ConfigBlob?)
    && (SessionKey in store ==> store[SessionKey].SessionBlob?)
  }

  /** `localStorage.getItem(USERS_KEY)`, parsed. */
  function SavedUsers(store: Store): Option<seq<User>> {
    if UsersKey in store && store[UsersKey].UsersBlob? then Some(store[UsersKey].users) else None
  }

  /** `localStorage.getItem(STORAGE_KEY)`, parsed. */
  function SavedMedia(store: Store): Option<seq<MediaItem>> {
    if StorageKey in store && store[StorageKey].MediaBlob? then Some(store[StorageKey].items) else None
  }

  /** `localStorage.getItem(CONFIG_KEY)`, parsed. */
  function SavedConfig(store: Store): Option<CloudConfig> {
    if ConfigKey in store && store[ConfigKey].ConfigBlob? then Some(store[ConfigKey].config) else None
  }

  /** `localStorage.getItem('active_session_user')`, parsed. */
  function SavedSession(store: Store): Option<User> {
    if SessionKey in store && store[SessionKey].SessionBlob? then Some(store[SessionKey].user) else None
  }

  /** `localStorage.setItem(USERS_KEY, ...)`: only the roster slot changes. */
  function PutUsers(store: Store, users: seq<User>): (r: Store)
    ensures SavedUsers(r) == Some(users)
    ensures SavedMedia(r) == SavedMedia(store) && SavedConfig(r) == SavedConfig(store)
    ensures SavedSession(r) == SavedSession(store)
    ensures WellTyped(store) ==> WellTyped(r)
  {
    KeysDistinct();
    store[UsersKey := UsersBlob(users)]
  }

  /** `localStorage.setItem(STORAGE_KEY, ...)`: only the catalog slot changes. */
  function PutMedia(store: Store, items: seq<MediaItem>): (r: Store)
    ensures SavedMedia(r) == Some(items)
    ensures SavedUsers(r) == SavedUsers(store) && SavedConfig(r) == SavedConfig(store)
    ensures SavedSession(r) == SavedSession(store)
    ensures WellTyped(store) ==> WellTyped(r)
  {
    KeysDistinct();
    store[StorageKey := MediaBlob(items)]
  }

  /** `localStorage.setItem(CONFIG_KEY, ...)`: only the configuration slot changes. */
  function PutConfig(store: Store, config: CloudConfig): (r: Store)
    ensures SavedConfig(r) == Some(config)
    ensures SavedUsers(r) == SavedUsers(store) && SavedMedia(r) == SavedMedia(store)
    ensures SavedSession(r) == SavedSession(store)
    ensures WellTyped(store) ==> WellTyped(r)
  {
    KeysDistinct();
    store[ConfigKey := ConfigBlob(config)]
  }

  /** `localStorage.setItem('active_session_user', ...)`: only the session slot changes. */
  function PutSession(store: Store, user: User): (r: Store)
    ensures SavedSession(r) == Some(user)
    ensures SavedUsers(r) == SavedUsers(store) && SavedMedia(r) == SavedMedia(store)
    ensures SavedConfig(r) == SavedConfig(store)
    ensures WellTyped(store) ==> WellTyped(r)
  {
    KeysDistinct();
    store[SessionKey := SessionBlob(user)]
  }

  /** `localStorage.removeItem('active_session_user')`: only the session slot changes. */
  function RemoveSession(store: Store): (r: Store)
    ensures SavedSession(r) == None
    ensures SavedUsers(r) == SavedUsers(store) && SavedMedia(r) == SavedMedia(store)
    ensures SavedConfig(r) == SavedConfig(store)
    ensures WellTyped(store) ==> WellTyped(r)
  {
    KeysDistinct();
    store - {SessionKey}
  }
}
