/** The administrator's settings sheet: the profile form (create or edit a
    roster entry), the roster list with its delete buttons, avatar upload, and
    the configuration form that is saved as a whole. Fresh ids
    (`crypto.randomUUID()`), file reads and network replies are parameters. */
module AdminDashboard {
  import opened Base
  import opened Strings
  import opened Types
  import opened Constants
  import opened PinInput
  import opened DriveService

  /** `'users' | 'cloud'`. */
  datatype Tab = AccountsTab | CloudTab

  /** The profile form: the id being edited (none when creating), name, PIN and avatar URL. */
  datatype ProfileForm = ProfileForm(editingUserId: Option<string>, name: string, pin: string, avatar: string)

  /** The sheet's state: the visible tab, the profile form and the configuration being edited. */
  datatype Dashboard = Dashboard(tab: Tab, form: ProfileForm, settings: CloudConfig)

  const EmptyForm: ProfileForm := ProfileForm(None, "", "", "")

  const AvatarSeedUrl: string := "https://api.dicebear.com/7.x/avataaars/svg?seed="

  const NewProfileColor: string := "bg-slate-500"

  /** `handleEditUser`: load a profile into the form and show the accounts tab. */
  function EditUser(d: Dashboard, user: User): (e: Dashboard)
    ensures e.form.editingUserId == Some(user.id)
    ensures e.form.name == user.name && e.form.pin == user.pin && e.form.avatar == user.avatar
    ensures e.tab == AccountsTab && e.settings == d.settings
  {
    d.(tab := AccountsTab, form := ProfileForm(Some(user.id), user.name, user.pin, user.avatar))
  }

  /** `resetUserForm`: clear the form and leave everything else. */
  function ResetUserForm(d: Dashboard): (e: Dashboard)
    ensures e.form == EmptyForm
    ensures e.tab == d.tab && e.settings == d.settings
  {
    d.(form := EmptyForm)
  }

  /** The PIN field's `onChange`: at most four characters, digits only. */
  function TypePin(d: Dashboard, raw: string): (e: Dashboard)
    ensures WellFormedPin(e.form.pin)
    ensures e.form.(pin := d.form.pin) == d.form
    ensures e.tab == d.tab && e.settings == d.settings
  {
    d.(form := d.form.(pin := FilterPin(raw)))
  }

  /** What submitting the form did: the new form state, and the profile handed to `onAddUser`. */
  datatype Submission = Submission(dashboard: Dashboard, added: Option<User>)

  /** `handleSubmitUser`: ignored without a name or with fewer than four PIN characters;
      otherwise the edited (or a fresh) id, administrator role only when editing the root
      administrator, a seeded avatar when none is set, the default colour, and a cleared form. */
  function SubmitUser(d: Dashboard, freshId: string): (r: Submission)
    ensures d.form.name == "" || |d.form.pin| < 4 ==> r == Submission(d, None)
    ensures r.added.Some? <==> d.form.name != "" && |d.form.pin| >= 4
    ensures r.added.Some? ==>
      var u := r.added.value;
      && u.id == (if Truthy(d.form.editingUserId) then d.form.editingUserId.value else freshId)
      && u.name == d.form.name && u.pin == d.form.pin
      && (u.role == Admin <==> d.form.editingUserId == Some(RootAdminId))
      && u.avatar == (if d.form.avatar != "" then d.form.avatar else AvatarSeedUrl + d.form.name)
      && u.color == NewProfileColor
      && r.dashboard == ResetUserForm(d)
  {
    var f := d.form;
    if f.name == "" || |f.pin| < 4 then Submission(d, None)
    else
      var id := if Truthy(f.editingUserId) then f.editingUserId.value else freshId;
      var role := if f.editingUserId == Some(RootAdminId) then Admin else Member;
      var avatar := if f.avatar != "" then f.avatar else AvatarSeedUrl + f.name;
      Submission(ResetUserForm(d), Some(User(id, f.name, avatar, NewProfileColor, role, f.pin)))
  }

  /** A PIN typed into the form and accepted on submit is exactly four digits. */
  lemma SubmittedPinIsFourDigits(d: Dashboard, raw: string, freshId: string)
    requires SubmitUser(TypePin(d, raw), freshId).added.Some?
    ensures var pin := SubmitUser(TypePin(d, raw), freshId).added.value.pin;
      |pin| == 4 && AllDigits(pin)
  {
    LongEnoughPinIsFourDigits(FilterPin(raw));
  }

  /** Editing a profile and submitting the form untouched keeps the stored PIN as it is, whatever
      its shape: the form loads it unfiltered and the submit checks only its length. */
  lemma EditedPinKeptAsStored(d: Dashboard, user: User, freshId: string)
    requires user.name != "" && |user.pin| >= 4
    ensures SubmitUser(EditUser(d, user), freshId).added.Some?
    ensures SubmitUser(EditUser(d, user), freshId).added.value.pin == user.pin
  {
  }

  /** Through the form, the administrator role goes exactly to the root administrator's id: a
      submitted profile is an administrator iff it carries that id, provided the fresh id is not it. */
  lemma FormGrantsAdminOnlyToRoot(d: Dashboard, freshId: string)
    requires freshId != RootAdminId
    requires SubmitUser(d, freshId).added.Some?
    ensures var u := SubmitUser(d, freshId).added.value;
      u.role == Admin <==> u.id == RootAdminId
  {
  }

  /** Submitting an edited profile keeps its id, so the application replaces the entry instead of
      adding one. */
  lemma EditKeepsId(d: Dashboard, user: User, freshId: string)
    requires user.id != ""
    requires SubmitUser(EditUser(d, user), freshId).added.Some?
    ensures SubmitUser(EditUser(d, user), freshId).added.value.id == user.id
  {
  }

  /** The ids offered a Delete button: every entry except the root administrator. */
  function DeletableIds(users: seq<User>): (ids: seq<string>)
    ensures RootAdminId !in ids
    ensures forall u :: u in users && u.id != RootAdminId ==> u.id in ids
    ensures forall id :: id in ids ==> exists u :: u in users && u.id == id
    ensures |ids| <= |users|
  {
    if users == [] then []
    else
      var rest := DeletableIds(users[1..]);
      assert forall u :: u in users[1..] ==> u in users;
      if users[0].id == RootAdminId then rest else [users[0].id] + rest
  }

  /** What an avatar upload did: the sheet afterwards and the upload attempted, if any. */
  datatype AvatarStep = AvatarStep(dashboard: Dashboard, upload: Option<DriveUpload>)

  /** `handleAvatarFileChange`: without a folder id and an API key nothing is read or sent and the
      sheet switches to the configuration tab; otherwise the file is uploaded and, on success, the
      form's avatar becomes the stored file's preview URL. A failure leaves the form as it was. */
  function HandleAvatarFileChange(d: Dashboard, file: Option<LocalFile>, read: Option<string>, reply: DriveReply): (r: AvatarStep)
    ensures file.None? ==> r == AvatarStep(d, None)
    ensures file.Some? && !(Truthy(d.settings.storage.folderId) && Truthy(d.settings.storage.apiKey)) ==>
      r == AvatarStep(d.(tab := CloudTab), None)
    ensures r.upload.Some? ==> r.upload == Some(UploadFileToDrive(file.value, d.settings.storage, read, reply))
    ensures file.Some? && Truthy(d.settings.storage.folderId) && Truthy(d.settings.storage.apiKey) ==> r.upload.Some?
    ensures r.upload.Some? && r.upload.value.outcome.Success? ==>
      r.dashboard == d.(form := d.form.(avatar := PreviewUrl(r.upload.value.outcome.value)))
    ensures r.upload.Some? && r.upload.value.outcome.Failure? ==> r.dashboard == d
    ensures r.dashboard.form.(avatar := d.form.avatar) == d.form && r.dashboard.settings == d.settings
  {
    if file.None? then AvatarStep(d, None)
    else if !(Truthy(d.settings.storage.folderId) && Truthy(d.settings.storage.apiKey)) then
      AvatarStep(d.(tab := CloudTab), None)
    else
      var upload := UploadFileToDrive(file.value, d.settings.storage, read, reply);
      match upload.outcome
      case Success(fileId) => AvatarStep(d.(form := d.form.(avatar := PreviewUrl(fileId))), Some(upload))
      case Failure(_) => AvatarStep(d, Some(upload))
  }

  /** The remote-sync switch: checked selects the remote provider, unchecked the local one; the
      URL and key fields keep their values. */
  function ToggleRemoteSync(d: Dashboard, checked: bool): (e: Dashboard)
    ensures e.settings.database.provider == (if checked then Supabase else Local)
    ensures e.settings.database.(provider := d.settings.database.provider) == d.settings.database
    ensures e.settings.(database := d.settings.database) == d.settings
    ensures e.tab == d.tab && e.form == d.form
  {
    d.(settings := d.settings.(database := d.settings.database.(provider := if checked then Supabase else Local)))
  }

  /** Switching the remote sync off and back on (or on and back off) returns to the same settings. */
  lemma ToggleRoundTrip(d: Dashboard)
    ensures ToggleRemoteSync(ToggleRemoteSync(d, d.settings.database.provider == Local),
                             d.settings.database.provider == Supabase) == d
  {
  }

  /** The text fields of the configuration form; each replaces one field with what was typed. */
  datatype SettingsField = BrandName | FolderId | ApiKey | SupabaseUrl | SupabaseAnonKey

  function EditSetting(d: Dashboard, field: SettingsField, value: string): (e: Dashboard)
    ensures e.tab == d.tab && e.form == d.form
    ensures e.settings.isActive == d.settings.isActive && e.settings.database.provider == d.settings.database.provider
    ensures field == BrandName ==> e.settings == d.settings.(brandName := value)
    ensures field == FolderId ==> e.settings == d.settings.(storage := d.settings.storage.(folderId := Some(value)))
    ensures field == ApiKey ==> e.settings == d.settings.(storage := d.settings.storage.(apiKey := Some(value)))
    ensures field == SupabaseUrl ==>
      e.settings == d.settings.(database := d.settings.database.(supabaseUrl := Some(value)))
    ensures field == SupabaseAnonKey ==>
      e.settings == d.settings.(database := d.settings.database.(supabaseAnonKey := Some(value)))
  {
    var s := d.settings;
    var s' := match field
      case BrandName => s.(brandName := value)
      case FolderId => s.(storage := s.storage.(folderId := Some(value)))
      case ApiKey => s.(storage := s.storage.(apiKey := Some(value)))
      case SupabaseUrl => s.(database := s.database.(supabaseUrl := Some(value)))
      case SupabaseAnonKey => s.(database := s.database.(supabaseAnonKey := Some(value)));
    d.(settings := s')
  }

  /** `handleSave`: the configuration handed to `onSaveConfig` is the edited one marked active. */
  function HandleSave(d: Dashboard): (config: CloudConfig)
    ensures config.isActive
    ensures config.(isActive := d.settings.isActive) == d.settings
  {
    d.settings.(isActive := true)
  }
}
