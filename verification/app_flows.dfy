/** The components wired to the application's handlers, as `App.tsx` passes
    them down: the accounts form into `handleAddUser`, the uploader into
    `addMediaItem`, the lightbox's delete into `deleteMediaItem`, the settings
    sheet into `handleSaveConfig`, and the sign-in screen into
    `handleUserSelect`. */
module AppFlows {
  import opened Base
  import opened Strings
  import opened Types
  import opened Constants
  import opened Collections
  import opened LocalStore
  import opened SupabaseService
  import opened Reconciler
  import opened DriveService
  import opened GeminiService
  import opened AdminDashboard
  import opened Uploader
  import opened Gallery
  import opened UserSelector

  /** Every administrator in the roster is the root administrator. */
  predicate OnlyRootIsAdmin(users: seq<User>) {
    forall k :: 0 <= k < |users| && users[k].role == Admin ==> users[k].id == RootAdminId
  }

  /** The application and the settings sheet after a profile submission. */
  datatype ProfileFlow = ProfileFlow(step: Step, dashboard: Dashboard)

  /** The accounts form's submit: a submission the form accepts goes through `handleAddUser`. */
  function SubmitProfile(s: State, d: Dashboard, freshId: string, reply: WriteReply): (r: ProfileFlow)
    ensures SubmitUser(d, freshId).added.None? ==> r == ProfileFlow(Step(s, []), d)
    ensures SubmitUser(d, freshId).added.Some? ==>
      && r.step.state.users == UpsertById(s.users, UserId, SubmitUser(d, freshId).added.value)
      && r.dashboard.form == EmptyForm
  {
    var sub := SubmitUser(d, freshId);
    match sub.added
    case None => ProfileFlow(Step(s, []), d)
    case Some(user) => ProfileFlow(HandleAddUser(s, user, reply), sub.dashboard)
  }

  /** The default roster has no administrator but the root one. */
  lemma InitialRosterOnlyRootIsAdmin()
    ensures OnlyRootIsAdmin(InitialUsers())
  {
  }

  /** Profiles created or edited through the form never make anyone but the root administrator an
      administrator (fresh ids are assumed not to collide with the root id). */
  lemma AdminRoleStaysWithRoot(s: State, d: Dashboard, freshId: string, reply: WriteReply)
    requires OnlyRootIsAdmin(s.users) && freshId != RootAdminId
    ensures OnlyRootIsAdmin(SubmitProfile(s, d, freshId, reply).step.state.users)
  {
    var sub := SubmitUser(d, freshId);
    if sub.added.Some? {
      var u := sub.added.value;
      FormGrantsAdminOnlyToRoot(d, freshId);
      var r := SubmitProfile(s, d, freshId, reply).step.state.users;
      var i := FindIndex(s.users, UserId, u.id);
      forall k | 0 <= k < |r| && r[k].role == Admin
        ensures r[k].id == RootAdminId
      {
        if (i >= 0 && k == i) || (i < 0 && k == |s.users|) {
          assert r[k] == u;
        } else {
          assert r[k] == s.users[k];
        }
      }
    }
  }

  /** Deleting a profile never creates an administrator. */
  lemma DeleteKeepsOnlyRootAdmin(s: State, id: string, confirmed: bool, reply: WriteReply)
    requires OnlyRootIsAdmin(s.users)
    ensures OnlyRootIsAdmin(HandleDeleteUser(s, id, confirmed, reply).state.users)
  {
    var r := HandleDeleteUser(s, id, confirmed, reply).state.users;
    forall k | 0 <= k < |r| && r[k].role == Admin
      ensures r[k].id == RootAdminId
    {
      assert r[k] in s.users;
    }
  }

  /** The uploader wired to `addMediaItem`: a completed upload is added to the catalog. */
  function UploadAndShare(
    s: State, user: User, file: Option<LocalFile>, driveRead: Option<string>, driveReply: DriveReply,
    aiRead: Option<string>, aiReply: GeminiReply, now: int, reply: WriteReply): (r: Step)
    ensures var run := HandleFileChange(s.config, user, file, driveRead, driveReply, aiRead, aiReply, now);
      && (run.completed.None? ==> r == Step(s, []))
      && (run.completed.Some? ==> r.state.media == [run.completed.value] + s.media)
  {
    var run := HandleFileChange(s.config, user, file, driveRead, driveReply, aiRead, aiReply, now);
    if run.completed.Some? then AddMediaItem(s, run.completed.value, reply) else Step(s, [])
  }

  /** A completed upload shows first in the grid, previewed and downloaded through the id the blob
      store returned. */
  lemma UploadedItemLeadsGallery(
    s: State, user: User, file: LocalFile, driveRead: Option<string>, driveReply: DriveReply,
    aiRead: Option<string>, aiReply: GeminiReply, now: int, reply: WriteReply)
    requires HandleFileChange(s.config, user, Some(file), driveRead, driveReply, aiRead, aiReply, now).completed.Some?
    ensures var run := HandleFileChange(s.config, user, Some(file), driveRead, driveReply, aiRead, aiReply, now);
      var fileId := run.upload.value.outcome.value;
      var media := UploadAndShare(s, user, Some(file), driveRead, driveReply, aiRead, aiReply, now, reply).state.media;
      var v := Render(media, Mount(media));
      && v.Grid? && v.tiles[0].preview == PreviewUrl(fileId)
      && DetailOf(media[0]).downloadUrl == DownloadUrl(fileId)
      && (v.tiles[0].isVideo <==> StartsWith(file.mimeType, "video/"))
  {
  }

  /** In local mode a newly added item is at the head of the saved catalog as well as of the
      in-memory one. */
  lemma LocalModeSavesNewItemFirst(s: State, item: MediaItem, reply: WriteReply)
    requires !s.initializing && s.config.database.provider == Local
    ensures var t := AddMediaItem(s, item, reply).state;
      SavedMedia(t.store).Some? && |SavedMedia(t.store).value| > 0 && SavedMedia(t.store).value[0] == item
      && AddMediaItem(s, item, reply).requests == []
  {
  }

  /** The application and the gallery after a delete from the lightbox. */
  datatype LightboxFlow = LightboxFlow(step: Step, gallery: GalleryState)

  /** The "All Media" gallery's lightbox delete button wired to `deleteMediaItem`, followed by
      the gallery's handling of the new catalog as written: the selection and the key listener
      are left as they were. */
  function DeleteFromLightbox(s: State, g: GalleryState, confirmed: bool, reply: WriteReply): (r: LightboxFlow)
    requires g.selected.At? && 0 <= g.selected.i < |s.media|
    ensures r.step == DeleteMediaItem(s, s.media[g.selected.i].id, confirmed, reply)
    ensures confirmed ==> forall k :: 0 <= k < |r.step.state.media| ==> r.step.state.media[k].id != s.media[g.selected.i].id
    ensures r.gallery.selected == g.selected && r.gallery.keyLength == g.keyLength
  {
    var step := DeleteMediaItem(s, s.media[g.selected.i].id, confirmed, reply);
    LightboxFlow(step, ItemsChangedAsWritten(g, step.state.media))
  }

  /** Deleting the last item of the catalog from its own lightbox, while some other item remains,
      makes the next render throw: the catalog shrinks below the index the lightbox still holds. */
  lemma LightboxDeleteOfLastItemCrashes(s: State, g: GalleryState, reply: WriteReply)
    requires |s.media| >= 1 && g.selected == At(|s.media| - 1)
    requires exists k :: 0 <= k < |s.media| && s.media[k].id != s.media[|s.media| - 1].id
    ensures var r := DeleteFromLightbox(s, g, true, reply);
      var v := Render(r.step.state.media, r.gallery);
      v.Grid? && v.lightbox.Crashed?
  {
    var n := |s.media|;
    var k :| 0 <= k < n && s.media[k].id != s.media[n - 1].id;
    RemoveLastIdShrinks(s.media, ItemId, k);
  }

  /** The corrected flow: the gallery closes a lightbox whose index no longer points at an item
      (see `Gallery.ItemsChanged`). */
  function DeleteFromLightboxCorrected(s: State, g: GalleryState, confirmed: bool, reply: WriteReply): (r: LightboxFlow)
    requires Valid(g, s.media) && g.selected.At?
    ensures r.step == DeleteMediaItem(s, s.media[g.selected.i].id, confirmed, reply)
    ensures Valid(r.gallery, r.step.state.media)
    ensures !confirmed ==> r.gallery == g
  {
    var step := DeleteMediaItem(s, s.media[g.selected.i].id, confirmed, reply);
    LightboxFlow(step, ItemsChanged(g, step.state.media))
  }

  /** With the corrected flow, whatever the user deletes from the lightbox, the next render does
      not throw. */
  lemma CorrectedLightboxDeleteNeverCrashes(s: State, g: GalleryState, confirmed: bool, reply: WriteReply)
    requires Valid(g, s.media) && g.selected.At?
    ensures var r := DeleteFromLightboxCorrected(s, g, confirmed, reply);
      var v := Render(r.step.state.media, r.gallery);
      v.Grid? ==> !v.lightbox.Crashed?
  {
    var r := DeleteFromLightboxCorrected(s, g, confirmed, reply);
    ValidNeverCrashes(r.gallery, r.step.state.media);
  }

  /** The settings sheet's Done button wired to `handleSaveConfig`. */
  function SaveSettings(s: State, d: Dashboard, remote: RemoteReplies): (r: Step)
    ensures r.state.config == HandleSave(d) && r.state.config.isActive
    ensures !s.initializing ==> SavedConfig(r.state.store) == Some(r.state.config)
  {
    HandleSaveConfig(s, HandleSave(d), remote)
  }

  /** Saving settings with remote sync switched off reloads without any remote request. */
  lemma LocalSettingsSendNothing(s: State, d: Dashboard, remote: RemoteReplies)
    requires d.settings.database.provider == Local
    ensures SaveSettings(s, d, remote).requests == []
  {
    var config := HandleSave(d);
    LocalModeNeverContactsRemote(s.(config := config), config, remote);
  }

  /** The sign-in screen, shown while nobody is signed in, wired to `handleUserSelect`. */
  function SignIn(s: State, f: LoginForm): (r: State)
    requires s.currentUser.None?
    ensures r.currentUser.Some? <==> f.selected.Some? && f.pin == f.selected.value.pin
    ensures r.currentUser.Some? ==> r.currentUser == f.selected && SavedSession(r.store) == f.selected
    ensures r.currentUser.None? ==> r == s
  {
    match HandleLogin(f).signedIn
    case Some(user) => HandleUserSelect(s, user)
    case None => s
  }
}
