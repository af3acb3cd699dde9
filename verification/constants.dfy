/** Built-in defaults: the permanent administrator, the seed roster and the
    local storage keys. */
module Constants {
  import opened Strings
  import opened Types

  /** The profile that can never be deleted and is always an administrator. */
  const RootAdminId: string := "root-admin-raju"

  /** Local storage key of the media catalog. */
  const StorageKey: string := "shared_cloud_data_v2"

  /** Local storage key of the roster. */
  const UsersKey: string := "shared_cloud_users_v2"

  /** Local storage key of the configuration. */
  const ConfigKey: string := "shared_cloud_config_v2"

  /** Local storage key of the signed-in profile (owned by the session layer). */
  const SessionKey: string := "active_session_user"

  /** The seed roster: exactly the root administrator, with a four-digit PIN. */
  function InitialUsers(): (users: seq<User>)
    ensures |users| == 1
    ensures users[0].id == RootAdminId && users[0].role == Admin
    ensures |users[0].pin| == 4 && AllDigits(users[0].pin)
  {
    [User(RootAdminId, "Raju", "https://api.dicebear.com/7.x/avataaars/svg?seed=Raju", "bg-blue-600", Admin, "1122")]
  }

  /** The four storage slots never collide, so writing one leaves the others intact. */
  lemma KeysDistinct()
    ensures StorageKey != UsersKey && StorageKey != ConfigKey && UsersKey != ConfigKey
    ensures SessionKey != StorageKey && SessionKey != UsersKey && SessionKey != ConfigKey
  {
    assert StorageKey[13] != UsersKey[13];
    assert StorageKey[13] != ConfigKey[13];
    assert UsersKey[13] != ConfigKey[13];
    assert SessionKey[0] != StorageKey[0];
  }
}
