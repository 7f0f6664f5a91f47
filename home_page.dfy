/**
 * `HomePage`: entering the page, selecting files, the upload flow that turns
 * a selection into stored objects and a new target, deleting a target and
 * signing out. The upload and delete flows are specified by functions on the
 * page's state and the store's; the page's methods are proved against them.
 */
module Home {
  import opened Wrappers
  import opened Text
  import opened Domain
  import opened Storage
  import opened Assets
  import opened Supabase
  import opened Auth

  /** An alert the page shows: its header and its message. */
  datatype Alert = Alert(header: string, message: string)

  /** What an action ends with besides the state it leaves. */
  datatype Outcome = NoAction | Alerted(alert: Alert) | RedirectedToLogin

  const InvalidSelectionMessage: string :=
    "Solo se permiten archivos NFT (.iset, .fset, .fset3), markers (.patt) o imágenes (.jpg/.png)."
  const NoKindMessage: string := "Debes subir los 3 archivos NFT juntos, un .patt o una imagen válida."
  const NftUploaded: string := "NFT subido y target creado."
  const MarkerUploaded: string := "Marker subido y target creado."
  const ImageUploaded: string := "Imagen subida y target creado."

  /** The alert of `uploadAssets`'s `catch`: the error's message, when it is an `Error`. */
  function UploadFailed(e: Thrown): (a: Alert)
    ensures a.header == "Error"
    ensures e.ErrorObject? ==> a.message == "Falló la subida: " + e.message
    ensures e.OtherValue? ==> a.message == "Falló la subida: Revisa la consola."
  {
    Alert("Error", "Falló la subida: " + ErrorText(e, "Revisa la consola."))
  }

  const DeleteFailed: Alert := Alert("Error", "No se pudo eliminar el target.")
  const Deleted: Alert := Alert("Eliminar", "Target eliminado.")

  /** The page's list and spinner together with the store they show. */
  datatype Screen = Screen(objects: map<ObjectKey, File>, rows: seq<Target>, targets: seq<Target>, isLoading: bool)

  /**
   * What the store reports for each call of one upload: the i-th descriptor
   * upload fails when `i` is in `descriptor`; `upload` is the one
   * `uploadImage`/`uploadFile` call; `insert` is `addTarget`; `list` is the
   * refreshing `getTargets`.
   */
  datatype UploadFaults = UploadFaults(
    descriptor: map<nat, Thrown>,
    upload: Option<Thrown>,
    insert: Option<Thrown>,
    list: Option<Thrown>)

  function DescriptorFault(m: map<nat, Thrown>, i: nat): Option<Thrown> {
    if i in m then Some(m[i]) else None
  }

  // ---------------------------------------------------------------------------
  // the descriptor uploads

  /** The store after descriptor uploads that stopped, and the error that stopped them. */
  datatype Partial = Partial(objects: map<ObjectKey, File>, error: Option<Thrown>)

  /** The descriptor uploads from the i-th on, in order; the first that fails ends them. */
  function UploadDescriptors(objects: map<ObjectKey, File>, folder: string, ds: seq<File>,
                             m: map<nat, Thrown>, i: nat): Partial
    requires i <= |ds|
    decreases |ds| - i
  {
    if i == |ds| then Partial(objects, None)
    else if i in m then Partial(objects, Some(m[i]))
    else UploadDescriptors(objects[ObjectKey(DefaultBucket, DescriptorPath(folder, ds[i])) := ds[i]], folder, ds, m, i + 1)
  }

  /** The store after the descriptors `i` to `j - 1` are written without failure. */
  function StoreDescriptors(objects: map<ObjectKey, File>, folder: string, ds: seq<File>, i: nat, j: nat)
    : map<ObjectKey, File>
    requires i <= j <= |ds|
    decreases j - i
  {
    if i == j then objects
    else StoreDescriptors(objects[ObjectKey(DefaultBucket, DescriptorPath(folder, ds[i])) := ds[i]], folder, ds, i + 1, j)
  }

  /** The uploads run in order: the first failing one leaves the earlier ones stored and the later ones not attempted. */
  lemma {:induction false} UploadDescriptorsStopsAtFirstFault(objects: map<ObjectKey, File>, folder: string,
                                                             ds: seq<File>, m: map<nat, Thrown>, i: nat, j: nat)
    requires i <= j < |ds| && j in m
    requires forall k :: i <= k < j ==> k !in m
    ensures UploadDescriptors(objects, folder, ds, m, i) == Partial(StoreDescriptors(objects, folder, ds, i, j), Some(m[j]))
    decreases j - i
  {
    if i < j {
      UploadDescriptorsStopsAtFirstFault(objects[ObjectKey(DefaultBucket, DescriptorPath(folder, ds[i])) := ds[i]],
                                         folder, ds, m, i + 1, j);
    }
  }

  /** Without a failure every descriptor is stored. */
  lemma {:induction false} UploadDescriptorsWithoutFault(objects: map<ObjectKey, File>, folder: string,
                                                        ds: seq<File>, m: map<nat, Thrown>, i: nat)
    requires i <= |ds|
    requires forall k :: i <= k < |ds| ==> k !in m
    ensures UploadDescriptors(objects, folder, ds, m, i) == Partial(StoreDescriptors(objects, folder, ds, i, |ds|), None)
    decreases |ds| - i
  {
    if i < |ds| {
      UploadDescriptorsWithoutFault(objects[ObjectKey(DefaultBucket, DescriptorPath(folder, ds[i])) := ds[i]],
                                    folder, ds, m, i + 1);
    }
  }

  /** A failure of any descriptor upload ends the uploads with an error. */
  lemma {:induction false} UploadDescriptorsFailsOnAnyFault(objects: map<ObjectKey, File>, folder: string,
                                                           ds: seq<File>, m: map<nat, Thrown>, i: nat, j: nat)
    requires i <= j < |ds| && j in m
    ensures UploadDescriptors(objects, folder, ds, m, i).error.Some?
    decreases j - i
  {
    if i < j && i !in m {
      UploadDescriptorsFailsOnAnyFault(objects[ObjectKey(DefaultBucket, DescriptorPath(folder, ds[i])) := ds[i]],
                                       folder, ds, m, i + 1, j);
    }
  }

  /** Writing descriptors stores each of them under its path and keeps every object already there. */
  lemma {:induction false} StoreDescriptorsHolds(objects: map<ObjectKey, File>, folder: string, ds: seq<File>, i: nat, j: nat)
    requires i <= j <= |ds|
    ensures objects.Keys <= StoreDescriptors(objects, folder, ds, i, j).Keys
    ensures forall k :: i <= k < j ==>
              ObjectKey(DefaultBucket, DescriptorPath(folder, ds[k])) in StoreDescriptors(objects, folder, ds, i, j)
    decreases j - i
  {
    if i < j {
      StoreDescriptorsHolds(objects[ObjectKey(DefaultBucket, DescriptorPath(folder, ds[i])) := ds[i]], folder, ds, i + 1, j);
    }
  }

  // ---------------------------------------------------------------------------
  // uploadAssets

  /** `addTarget`, then `getTargets` and the success alert; either call may throw into the `catch`. */
  function AddAndList(s: Screen, objects: map<ObjectKey, File>, uid: string, draft: Target, newId: string,
                      f: UploadFaults, message: string): (r: (Screen, Alert))
    ensures r.0.isLoading == s.isLoading
    ensures f.insert.None? && f.list.None? ==>
              r.1 == Alert("Subida", message) && r.0.rows == s.rows + [draft.(id := newId)]
              && r.0.targets == OwnedBy(r.0.rows, uid)
    ensures f.insert.None? && f.list.None? && draft.userId == uid ==> draft.(id := newId) in r.0.targets
  {
    OwnedByMembers(s.rows + [draft.(id := newId)], uid);
    if f.insert.Some? then (s.(objects := objects), UploadFailed(f.insert.value))
    else
      var rows := s.rows + [draft.(id := newId)];
      if f.list.Some? then (s.(objects := objects, rows := rows), UploadFailed(f.list.value))
      else (s.(objects := objects, rows := rows, targets := OwnedBy(rows, uid)), Alert("Subida", message))
  }

  /** The NFT branch: the descriptors in order, then the optional image, then the record. */
  function NftUploadSpec(s: Screen, supabaseUrl: string, uid: string, ds: seq<File>, imageFile: Option<File>,
                         now: nat, newId: string, f: UploadFaults): (Screen, Alert)
    requires |ds| >= 1
  {
    var up := UploadDescriptors(s.objects, NftFolder(uid, ds[0]), ds, f.descriptor, 0);
    if up.error.Some? then (s.(objects := up.objects), UploadFailed(up.error.value))
    else if imageFile.None? then
      AddAndList(s, up.objects, uid, NftRecord(supabaseUrl, uid, ds[0], ""), newId, f, NftUploaded)
    else if f.upload.Some? then (s.(objects := up.objects), UploadFailed(f.upload.value))
    else
      var path := UploadPath(uid, now, imageFile.value.name);
      AddAndList(s, up.objects[ObjectKey(DefaultBucket, path) := imageFile.value], uid,
                 NftRecord(supabaseUrl, uid, ds[0], PublicUrl(supabaseUrl, DefaultBucket, path)), newId, f, NftUploaded)
  }

  /** The marker and image branches: one upload, then the record built from its URL. */
  function SingleUploadSpec(s: Screen, supabaseUrl: string, uid: string, file: File, kind: Kind,
                            now: nat, newId: string, f: UploadFaults): (Screen, Alert)
  {
    if f.upload.Some? then (s, UploadFailed(f.upload.value))
    else
      var path := UploadPath(uid, now, file.name);
      var url := PublicUrl(supabaseUrl, DefaultBucket, path);
      AddAndList(s, s.objects[ObjectKey(DefaultBucket, path) := file], uid,
                 if kind == Marker then MarkerRecord(uid, file, url) else ImageRecord(uid, file, url),
                 newId, f, if kind == Marker then MarkerUploaded else ImageUploaded)
  }

  /** The `try` block of `uploadAssets` for a signed-in user, with the alert it ends with. */
  function UploadSpec(s: Screen, supabaseUrl: string, uid: string, files: seq<File>, now: nat, newId: string,
                      f: UploadFaults): (Screen, Alert)
  {
    match Classify(files)
    case NftPlan(ds, imageFile) => NftUploadSpec(s, supabaseUrl, uid, ds, imageFile, now, newId, f)
    case MarkerPlan(pattFile) => SingleUploadSpec(s, supabaseUrl, uid, pattFile, Marker, now, newId, f)
    case ImagePlan(imageFile) => SingleUploadSpec(s, supabaseUrl, uid, imageFile, Image, now, newId, f)
    case NoPlan => (s, Alert("Error", NoKindMessage))
  }

  /** `uploadAssets`: without a user it only redirects; with one, the spinner is off however the upload ends. */
  function UploadAssetsSpec(s: Screen, supabaseUrl: string, currentUserId: Option<string>, files: seq<File>,
                            now: nat, newId: string, f: UploadFaults): (r: (Screen, Outcome))
    ensures !Truthy(currentUserId) ==> r == (s, RedirectedToLogin)
    ensures Truthy(currentUserId) ==> !r.0.isLoading && r.1.Alerted?
  {
    if !Truthy(currentUserId) then (s, RedirectedToLogin)
    else
      var (after, alert) := UploadSpec(s.(isLoading := true), supabaseUrl, currentUserId.value, files, now, newId, f);
      (after.(isLoading := false), Alerted(alert))
  }

  /** `onFilesSelected`: an empty selection does nothing, one with a disallowed file only alerts, any other is uploaded. */
  function FilesSelectedSpec(s: Screen, supabaseUrl: string, currentUserId: Option<string>, files: seq<File>,
                             now: nat, newId: string, f: UploadFaults): (r: (Screen, Outcome))
    ensures files == [] ==> r == (s, NoAction)
    ensures files != [] && (exists i :: 0 <= i < |files| && !Allowed(files[i])) ==>
              r == (s, Alerted(Alert("Error", InvalidSelectionMessage)))
    ensures files != [] && (forall i :: 0 <= i < |files| ==> Allowed(files[i])) ==>
              r == UploadAssetsSpec(s, supabaseUrl, currentUserId, files, now, newId, f)
  {
    InvalidFilesEmptyIff(files);
    if files == [] then (s, NoAction)
    else if InvalidFiles(files) != [] then (s, Alerted(Alert("Error", InvalidSelectionMessage)))
    else UploadAssetsSpec(s, supabaseUrl, currentUserId, files, now, newId, f)
  }

  /** A selection that is neither three descriptors nor holds a `.patt` file or an image changes nothing and alerts. */
  lemma UnrecognizedSelectionChangesNothing(s: Screen, supabaseUrl: string, uid: string, files: seq<File>,
                                            now: nat, newId: string, f: UploadFaults)
    requires |Descriptors(files)| != 3
    requires forall i :: 0 <= i < |files| ==> !IsPattern(files[i]) && !IsImage(files[i])
    ensures UploadSpec(s, supabaseUrl, uid, files, now, newId, f) == (s, Alert("Error", NoKindMessage))
  {
  }

  /** A failed descriptor upload adds no target and leaves the list as it was. */
  lemma DescriptorFailureAddsNoTarget(s: Screen, supabaseUrl: string, uid: string, files: seq<File>,
                                      now: nat, newId: string, f: UploadFaults, j: nat)
    requires |Descriptors(files)| == 3
    requires j < 3 && j in f.descriptor
    ensures UploadSpec(s, supabaseUrl, uid, files, now, newId, f).0.rows == s.rows
    ensures UploadSpec(s, supabaseUrl, uid, files, now, newId, f).0.targets == s.targets
    ensures UploadSpec(s, supabaseUrl, uid, files, now, newId, f).1.header == "Error"
  {
    var ds := Descriptors(files);
    UploadDescriptorsFailsOnAnyFault(s.objects, NftFolder(uid, ds[0]), ds, f.descriptor, 0, j);
  }

  /** The predicate of an upload in which no call fails. */
  predicate NoUploadFault(f: UploadFaults) {
    f.descriptor == map[] && f.upload.None? && f.insert.None? && f.list.None?
  }

  /** A recognised selection uploaded without failure adds one row with the store's id, owned by the user, and the refreshed list shows it. */
  lemma SuccessfulUploadListsNewTarget(s: Screen, supabaseUrl: string, uid: string, files: seq<File>,
                                       now: nat, newId: string, f: UploadFaults)
    requires !Classify(files).NoPlan?
    requires NoUploadFault(f)
    ensures var (after, alert) := UploadSpec(s, supabaseUrl, uid, files, now, newId, f);
            alert.header == "Subida"
            && |after.rows| == |s.rows| + 1 && after.rows[..|s.rows|] == s.rows
            && after.rows[|s.rows|].id == newId && after.rows[|s.rows|].userId == uid
            && after.rows[|s.rows|] in after.targets
            && after.targets == OwnedBy(after.rows, uid)
  {
    var objects, draft, message := UploadIsAddAndList(s, supabaseUrl, uid, files, now, newId, f);
    assert (s.rows + [draft.(id := newId)])[..|s.rows|] == s.rows;
  }

  /** Without failures, every recognised selection ends in `addTarget` of a row owned by the user, then the listing. */
  lemma UploadIsAddAndList(s: Screen, supabaseUrl: string, uid: string, files: seq<File>,
                           now: nat, newId: string, f: UploadFaults)
    returns (objects: map<ObjectKey, File>, draft: Target, message: string)
    requires !Classify(files).NoPlan?
    requires NoUploadFault(f)
    ensures draft.userId == uid
    ensures UploadSpec(s, supabaseUrl, uid, files, now, newId, f) == AddAndList(s, objects, uid, draft, newId, f, message)
  {
    match Classify(files)
    case NftPlan(ds, imageFile) =>
      var folder := NftFolder(uid, ds[0]);
      UploadDescriptorsWithoutFault(s.objects, folder, ds, f.descriptor, 0);
      var stored := StoreDescriptors(s.objects, folder, ds, 0, |ds|);
      message := NftUploaded;
      if imageFile.None? {
        objects, draft := stored, NftRecord(supabaseUrl, uid, ds[0], "");
      } else {
        var path := UploadPath(uid, now, imageFile.value.name);
        objects := stored[ObjectKey(DefaultBucket, path) := imageFile.value];
        draft := NftRecord(supabaseUrl, uid, ds[0], PublicUrl(supabaseUrl, DefaultBucket, path));
      }
    case MarkerPlan(pattFile) =>
      var path := UploadPath(uid, now, pattFile.name);
      objects, message := s.objects[ObjectKey(DefaultBucket, path) := pattFile], MarkerUploaded;
      draft := MarkerRecord(uid, pattFile, PublicUrl(supabaseUrl, DefaultBucket, path));
    case ImagePlan(imageFile) =>
      var path := UploadPath(uid, now, imageFile.name);
      objects, message := s.objects[ObjectKey(DefaultBucket, path) := imageFile], ImageUploaded;
      draft := ImageRecord(uid, imageFile, PublicUrl(supabaseUrl, DefaultBucket, path));
  }

  /** The row an NFT upload adds: named after the first descriptor, pointing at its folder, with the image's URL or `''`. */
  lemma NftUploadRecord(s: Screen, supabaseUrl: string, uid: string, files: seq<File>,
                        now: nat, newId: string, f: UploadFaults)
    requires |Descriptors(files)| == 3
    requires NoUploadFault(f)
    ensures var ds := Descriptors(files);
            var image := Find(files, IsImage);
            var content := if image.Some? then PublicUrl(supabaseUrl, DefaultBucket, UploadPath(uid, now, image.value.name)) else "";
            UploadSpec(s, supabaseUrl, uid, files, now, newId, f).0.rows
            == s.rows + [NftRecord(supabaseUrl, uid, ds[0], content).(id := newId)]
  {
    var ds := Descriptors(files);
    UploadDescriptorsWithoutFault(s.objects, NftFolder(uid, ds[0]), ds, f.descriptor, 0);
  }

  // ---------------------------------------------------------------------------
  // an NFT target's objects and its deletion

  const NoDeleteFault: DeleteFaults := DeleteFaults(None, None, None, None, None)

  /** The public URL of a folder leads the NFT clean-up to the folder's three descriptor paths. */
  lemma NftCleanupPaths(supabaseUrl: string, folder: string)
    requires PlainBase(supabaseUrl, DefaultBucket) && !EndsWith(supabaseUrl, "/")
    ensures CleanupPaths(supabaseUrl, Cleanup(NftSlot, PublicUrl(supabaseUrl, DefaultBucket, folder)))
            == Some(DescriptorPaths(folder))
  {
    DescriptorRemovalRoundTrip(supabaseUrl, DefaultBucket, folder);
  }

  /** The clean-up plan of a row pointing at a folder and at no pattern: its image first, when it has one, then the folder. */
  lemma NftRowCleanups(row: Target, supabaseUrl: string, folder: string)
    requires row.nftUrlBase == Some(PublicUrl(supabaseUrl, DefaultBucket, folder)) && row.patternUrl == None
    ensures Cleanups(row) == CleanupFor(ContentSlot, row.contentUrl) + [Cleanup(NftSlot, row.nftUrlBase.value)]
  {
    assert CleanupFor(NftSlot, row.nftUrlBase) == [Cleanup(NftSlot, row.nftUrlBase.value)];
    assert CleanupFor(PatternSlot, row.patternUrl) == [];
  }

  /** Deleting the files of an NFT row without an image removes the folder's three descriptor paths. */
  lemma NftCleanupRemovesDescriptors(objects: map<ObjectKey, File>, supabaseUrl: string, row: Target, folder: string)
    requires PlainBase(supabaseUrl, DefaultBucket) && !EndsWith(supabaseUrl, "/")
    requires row.nftUrlBase == Some(PublicUrl(supabaseUrl, DefaultBucket, folder)) && row.patternUrl == None
    requires row.contentUrl == Some("")
    ensures var left := RunCleanups(objects, supabaseUrl, Cleanups(row), NoDeleteFault);
            forall p :: p in DescriptorPaths(folder) ==> ObjectKey(DefaultBucket, p) !in left
  {
    var nft := Cleanup(NftSlot, PublicUrl(supabaseUrl, DefaultBucket, folder));
    NftCleanupPaths(supabaseUrl, folder);
    NftRowCleanups(row, supabaseUrl, folder);
    assert CleanupFor(ContentSlot, row.contentUrl) + [nft] == [nft];
    assert [nft][1..] == [];
  }

  /** Deleting the files of an NFT row with an image removes the image and the folder's three descriptor paths. */
  lemma NftCleanupRemovesImage(objects: map<ObjectKey, File>, supabaseUrl: string, row: Target, folder: string,
                               contentPath: string)
    requires PlainBase(supabaseUrl, DefaultBucket) && !EndsWith(supabaseUrl, "/")
    requires row.nftUrlBase == Some(PublicUrl(supabaseUrl, DefaultBucket, folder)) && row.patternUrl == None
    requires row.contentUrl == Some(PublicUrl(supabaseUrl, DefaultBucket, contentPath))
    ensures var left := RunCleanups(objects, supabaseUrl, Cleanups(row), NoDeleteFault);
            (forall p :: p in DescriptorPaths(folder) ==> ObjectKey(DefaultBucket, p) !in left)
            && ObjectKey(DefaultBucket, contentPath) !in left
  {
    var nft := Cleanup(NftSlot, PublicUrl(supabaseUrl, DefaultBucket, folder));
    var c := Cleanup(ContentSlot, row.contentUrl.value);
    NftCleanupPaths(supabaseUrl, folder);
    RemovalPathRoundTrip(supabaseUrl, DefaultBucket, contentPath);
    assert CleanupPaths(supabaseUrl, c) == Some([contentPath]);
    NftRowCleanups(row, supabaseUrl, folder);
    assert CleanupFor(ContentSlot, row.contentUrl) + [nft] == [c, nft];
    CleanupPairRemovesBoth(objects, supabaseUrl, c, nft, NoDeleteFault);
  }

  /** An id no row carries, appended with one row, is carried by that row alone. */
  lemma {:induction false} WithIdOfFreshRow(rows: seq<Target>, t: Target)
    requires forall u :: u in rows ==> u.id != t.id
    ensures WithId(rows + [t], t.id) == [t]
  {
    if rows == [] {
      assert rows + [t] == [t];
    } else {
      assert (rows + [t])[1..] == rows[1..] + [t];
      assert rows[0] in rows;
      WithIdOfFreshRow(rows[1..], t);
    }
  }

  /**
   * `deleteTarget` of a freshly added NFT row, with nothing failing, succeeds
   * and removes every descriptor of the folder and the image, if any.
   */
  lemma DeleteFreshNftRow(objects: map<ObjectKey, File>, rows: seq<Target>, supabaseUrl: string, uid: string,
                          ds: seq<File>, contentPath: Option<string>, newId: string)
    requires PlainBase(supabaseUrl, DefaultBucket) && !EndsWith(supabaseUrl, "/")
    requires |ds| >= 1 && forall d :: d in ds ==> IsDescriptor(d)
    requires forall t :: t in rows ==> t.id != newId
    ensures var content := if contentPath.Some? then PublicUrl(supabaseUrl, DefaultBucket, contentPath.value) else "";
            var row := NftRecord(supabaseUrl, uid, ds[0], content).(id := newId);
            var gone := DeleteTargetSpec(objects, rows + [row], supabaseUrl, newId, NoDeleteFault);
            gone.result == Success(true)
            && (forall k :: 0 <= k < |ds| ==>
                  ObjectKey(DefaultBucket, DescriptorPath(NftFolder(uid, ds[0]), ds[k])) !in gone.objects)
            && (contentPath.Some? ==> ObjectKey(DefaultBucket, contentPath.value) !in gone.objects)
  {
    var folder := NftFolder(uid, ds[0]);
    var content := if contentPath.Some? then PublicUrl(supabaseUrl, DefaultBucket, contentPath.value) else "";
    var row := NftRecord(supabaseUrl, uid, ds[0], content).(id := newId);
    WithIdOfFreshRow(rows, row);
    var gone := DeleteTargetSpec(objects, rows + [row], supabaseUrl, newId, NoDeleteFault);
    assert gone.objects == RunCleanups(objects, supabaseUrl, Cleanups(row), NoDeleteFault);
    if contentPath.Some? {
      NftCleanupRemovesImage(objects, supabaseUrl, row, folder, contentPath.value);
    } else {
      NftCleanupRemovesDescriptors(objects, supabaseUrl, row, folder);
    }
    forall k | 0 <= k < |ds|
      ensures ObjectKey(DefaultBucket, DescriptorPath(folder, ds[k])) !in gone.objects
    {
      assert ds[k] in ds;
      DescriptorPathIsRemovable(folder, ds[k]);
    }
  }

  /**
   * An NFT upload in which nothing fails, followed by a `deleteTarget` of the
   * new row in which nothing fails, leaves none of the uploaded objects: the
   * three descriptors and the image.
   */
  lemma NftUploadThenDeleteLeavesNoObject(s: Screen, supabaseUrl: string, uid: string, files: seq<File>,
                                          now: nat, newId: string, f: UploadFaults)
    requires PlainBase(supabaseUrl, DefaultBucket) && !EndsWith(supabaseUrl, "/")
    requires |Descriptors(files)| == 3
    requires NoUploadFault(f)
    requires forall t :: t in s.rows ==> t.id != newId
    ensures var after := UploadSpec(s, supabaseUrl, uid, files, now, newId, f).0;
            var gone := DeleteTargetSpec(after.objects, after.rows, supabaseUrl, newId, NoDeleteFault);
            var ds := Descriptors(files);
            var image := Find(files, IsImage);
            gone.result == Success(true)
            && (forall k :: 0 <= k < |ds| ==>
                  ObjectKey(DefaultBucket, DescriptorPath(NftFolder(uid, ds[0]), ds[k])) !in gone.objects)
            && (image.Some? ==> ObjectKey(DefaultBucket, UploadPath(uid, now, image.value.name)) !in gone.objects)
  {
    var ds := Descriptors(files);
    var image := Find(files, IsImage);
    var contentPath := if image.Some? then Some(UploadPath(uid, now, image.value.name)) else None;
    NftUploadRecord(s, supabaseUrl, uid, files, now, newId, f);
    var after := UploadSpec(s, supabaseUrl, uid, files, now, newId, f).0;
    DeleteFreshNftRow(after.objects, s.rows, supabaseUrl, uid, ds, contentPath, newId);
  }

  // ---------------------------------------------------------------------------
  // deleteTarget

  /** `deleteTarget` of the page: asks for confirmation, deletes through the store and refreshes the list. */
  function DeleteSpec(s: Screen, supabaseUrl: string, currentUserId: Option<string>, target: Target,
                      confirmed: bool, f: DeleteFaults, listFault: Option<Thrown>): (r: (Screen, Outcome))
    ensures !Truthy(currentUserId) ==> r == (s, RedirectedToLogin)
    ensures Truthy(currentUserId) && !confirmed ==> r == (s, NoAction)
    ensures r.0.isLoading == s.isLoading
    ensures r.1 == Alerted(Deleted) ==> r.0.targets == OwnedBy(r.0.rows, currentUserId.value)
    ensures r.1.Alerted? && r.1 != Alerted(Deleted) ==> r.0.targets == s.targets
  {
    if !Truthy(currentUserId) then (s, RedirectedToLogin)
    else if !confirmed then (s, NoAction)
    else
      var d := DeleteTargetSpec(s.objects, s.rows, supabaseUrl, target.id, f);
      var stored := s.(objects := d.objects, rows := d.rows);
      if d.result.Failure? || listFault.Some? then (stored, Alerted(DeleteFailed))
      else (stored.(targets := OwnedBy(d.rows, currentUserId.value)), Alerted(Deleted))
  }

  /** Once the page reports a target deleted, no listed target carries its id. */
  lemma DeletedTargetIsNotListed(s: Screen, supabaseUrl: string, currentUserId: Option<string>, target: Target,
                                 f: DeleteFaults, listFault: Option<Thrown>)
    requires DeleteSpec(s, supabaseUrl, currentUserId, target, true, f, listFault).1 == Alerted(Deleted)
    ensures forall t :: t in DeleteSpec(s, supabaseUrl, currentUserId, target, true, f, listFault).0.targets ==>
              t.id != target.id
  {
    var d := DeleteTargetSpec(s.objects, s.rows, supabaseUrl, target.id, f);
    OwnedByMembers(d.rows, currentUserId.value);
  }

  // ---------------------------------------------------------------------------
  // the page

  class HomePage {
    var targets: seq<Target>
    var currentUserId: Option<string>
    var isLoading: bool
    const auth: AuthService
    const supabase: SupabaseService

    constructor (auth: AuthService, supabase: SupabaseService)
      ensures this.auth == auth && this.supabase == supabase
      ensures targets == [] && currentUserId == None && !isLoading
    {
      this.auth := auth;
      this.supabase := supabase;
      targets := [];
      currentUserId := None;
      isLoading := false;
    }

    /** The page's state together with the store's. */
    function Current(): Screen
      reads this, supabase
    {
      Screen(supabase.objects, supabase.rows, targets, isLoading)
    }

    /** `ionViewWillEnter`: reads the session, lists the user's targets (none when listing fails) or redirects to login. */
    method IonViewWillEnter(listFault: Option<Thrown>) returns (outcome: Outcome)
      modifies this
      ensures currentUserId == (match auth.GetCurrentUser() case Some(u) => Some(u.uid) case None => None)
      ensures !isLoading
      ensures outcome == RedirectedToLogin <==> !Truthy(currentUserId)
      ensures outcome == RedirectedToLogin ==> targets == []
      ensures outcome != RedirectedToLogin ==>
                outcome == NoAction
                && targets == (if listFault.Some? then [] else OwnedBy(supabase.rows, currentUserId.value))
    {
      isLoading := true;
      var user := auth.GetCurrentUser();
      currentUserId := if user.Some? then Some(user.value.uid) else None;
      if Truthy(currentUserId) {
        var listed := supabase.ListTargets(currentUserId.value, listFault);
        targets := if listed.Success? then listed.value else [];
        isLoading := false;
        outcome := NoAction;
      } else {
        targets := [];
        isLoading := false;
        outcome := RedirectedToLogin;
      }
    }

    /** `onFilesSelected`. */
    method OnFilesSelected(files: seq<File>, now: nat, newId: string, f: UploadFaults) returns (outcome: Outcome)
      modifies this, supabase
      ensures currentUserId == old(currentUserId)
      ensures (Current(), outcome)
              == FilesSelectedSpec(old(Current()), supabase.supabaseUrl, currentUserId, files, now, newId, f)
    {
      if files == [] {
        return NoAction;
      }
      var invalidFiles := InvalidFiles(files);
      if invalidFiles != [] {
        return Alerted(Alert("Error", InvalidSelectionMessage));
      }
      outcome := UploadAssets(files, now, newId, f);
    }

    /** `uploadAssets`. */
    method UploadAssets(files: seq<File>, now: nat, newId: string, f: UploadFaults) returns (outcome: Outcome)
      modifies this, supabase
      ensures currentUserId == old(currentUserId)
      ensures (Current(), outcome)
              == UploadAssetsSpec(old(Current()), supabase.supabaseUrl, currentUserId, files, now, newId, f)
    {
      if !Truthy(currentUserId) {
        return RedirectedToLogin;
      }
      var uid := currentUserId.value;
      isLoading := true;
      ghost var start := Current();
      var nftFiles := Descriptors(files);
      var pattFile := Find(files, IsPattern);
      var imageFile := Find(files, IsImage);
      var alert: Alert;
      if |nftFiles| == 3 {
        assert Classify(files) == NftPlan(nftFiles, imageFile);
        alert := UploadNft(uid, nftFiles, imageFile, now, newId, f);
      } else if pattFile.Some? {
        assert Classify(files) == MarkerPlan(pattFile.value);
        alert := UploadSingle(uid, pattFile.value, Marker, now, newId, f);
      } else if imageFile.Some? {
        assert Classify(files) == ImagePlan(imageFile.value);
        alert := UploadSingle(uid, imageFile.value, Image, now, newId, f);
      } else {
        assert Classify(files) == NoPlan;
        alert := Alert("Error", NoKindMessage);
      }
      assert (Current(), alert) == UploadSpec(start, supabase.supabaseUrl, uid, files, now, newId, f);
      isLoading := false;
      outcome := Alerted(alert);
    }

    /** The marker branch (`uploadFile` of the `.patt` file) or the image branch (`uploadImage`) of `uploadAssets`. */
    method UploadSingle(uid: string, file: File, kind: Kind, now: nat, newId: string, f: UploadFaults)
      returns (alert: Alert)
      modifies this, supabase
      ensures currentUserId == old(currentUserId) && isLoading == old(isLoading)
      ensures (Current(), alert) == SingleUploadSpec(old(Current()), supabase.supabaseUrl, uid, file, kind, now, newId, f)
    {
      var publicUrl;
      if kind == Marker {
        publicUrl := supabase.UploadFile(uid, file, DefaultBucket, now, f.upload);
      } else {
        publicUrl := supabase.UploadImage(uid, file, DefaultBucket, now, f.upload);
      }
      if publicUrl.Failure? {
        return UploadFailed(publicUrl.error);
      }
      if kind == Marker {
        alert := AddAndListTargets(uid, MarkerRecord(uid, file, publicUrl.value), newId, f, MarkerUploaded);
      } else {
        alert := AddAndListTargets(uid, ImageRecord(uid, file, publicUrl.value), newId, f, ImageUploaded);
      }
    }

    /** The NFT branch of `uploadAssets`: the descriptors one by one, the optional image, then the record. */
    method UploadNft(uid: string, nftFiles: seq<File>, imageFile: Option<File>, now: nat, newId: string,
                     f: UploadFaults) returns (alert: Alert)
      requires |nftFiles| == 3
      modifies this, supabase
      ensures currentUserId == old(currentUserId) && isLoading == old(isLoading)
      ensures (Current(), alert)
              == NftUploadSpec(old(Current()), supabase.supabaseUrl, uid, nftFiles, imageFile, now, newId, f)
    {
      var baseName := StripDescriptorExtension(nftFiles[0].name);
      var folder := uid + "/" + baseName;
      var failure := UploadDescriptorFiles(folder, nftFiles, f.descriptor);
      if failure.Some? {
        return UploadFailed(failure.value);
      }
      var contentUrl := "";
      if imageFile.Some? {
        var uploaded := supabase.UploadImage(uid, imageFile.value, DefaultBucket, now, f.upload);
        if uploaded.Failure? {
          return UploadFailed(uploaded.error);
        }
        contentUrl := uploaded.value;
      }
      var newTarget := NftRecord(supabase.supabaseUrl, uid, nftFiles[0], contentUrl);
      alert := AddAndListTargets(uid, newTarget, newId, f, NftUploaded);
    }

    /** The `for` loop of the NFT branch: each descriptor to `${folder}.${ext}`, stopping at the first error. */
    method UploadDescriptorFiles(folder: string, nftFiles: seq<File>, m: map<nat, Thrown>) returns (failure: Option<Thrown>)
      modifies supabase
      ensures supabase.rows == old(supabase.rows)
      ensures Partial(supabase.objects, failure) == UploadDescriptors(old(supabase.objects), folder, nftFiles, m, 0)
    {
      ghost var plan := UploadDescriptors(supabase.objects, folder, nftFiles, m, 0);
      failure := None;
      var i := 0;
      while i < |nftFiles| && failure.None?
        invariant 0 <= i <= |nftFiles|
        invariant supabase.rows == old(supabase.rows)
        invariant failure.None? ==> plan == UploadDescriptors(supabase.objects, folder, nftFiles, m, i)
        invariant failure.Some? ==> plan == Partial(supabase.objects, failure)
        decreases |nftFiles| - i, if failure.None? then 1 else 0
      {
        var file := nftFiles[i];
        var ext := Last(Split(file.name, '.'));
        var path := folder + "." + ext;
        var stored := supabase.StorageUpload(DefaultBucket, path, file, DescriptorFault(m, i));
        if stored.Failure? {
          failure := Some(stored.error);
        } else {
          i := i + 1;
        }
      }
    }

    /** `addTarget`, `getTargets` and the success alert that close each branch of `uploadAssets`. */
    method AddAndListTargets(uid: string, draft: Target, newId: string, f: UploadFaults, message: string)
      returns (alert: Alert)
      modifies this, supabase
      ensures currentUserId == old(currentUserId) && isLoading == old(isLoading)
      ensures (Current(), alert) == AddAndList(old(Current()), old(supabase.objects), uid, draft, newId, f, message)
    {
      var saved := supabase.SaveTarget(draft, newId, f.insert);
      if saved.Failure? {
        return UploadFailed(saved.error);
      }
      var listed := supabase.ListTargets(uid, f.list);
      if listed.Failure? {
        return UploadFailed(listed.error);
      }
      targets := listed.value;
      alert := Alert("Subida", message);
    }

    /** `deleteTarget`, with the user's answer to the confirmation as `confirmed`. */
    method DeleteTarget(target: Target, confirmed: bool, f: DeleteFaults, listFault: Option<Thrown>)
      returns (outcome: Outcome)
      modifies this, supabase
      ensures currentUserId == old(currentUserId)
      ensures (Current(), outcome)
              == DeleteSpec(old(Current()), supabase.supabaseUrl, currentUserId, target, confirmed, f, listFault)
    {
      if !Truthy(currentUserId) {
        return RedirectedToLogin;
      }
      if !confirmed {
        return NoAction;
      }
      ghost var before := Current();
      ghost var d := DeleteTargetSpec(before.objects, before.rows, supabase.supabaseUrl, target.id, f);
      var deleted := supabase.DeleteTarget(target.id, f);
      ghost var stored := before.(objects := d.objects, rows := d.rows);
      assert Current() == stored && deleted == d.result;
      if deleted.Failure? {
        return Alerted(DeleteFailed);
      }
      var listed := supabase.ListTargets(currentUserId.value, listFault);
      if listed.Failure? {
        return Alerted(DeleteFailed);
      }
      targets := listed.value;
      outcome := Alerted(Deleted);
      assert Current() == stored.(targets := OwnedBy(d.rows, currentUserId.value));
    }

    /** `logout`: the list is cleared first; the redirect happens only when signing out succeeds. */
    method Logout(fault: Option<Thrown>) returns (r: Result<(), Thrown>, outcome: Outcome)
      modifies this, auth
      ensures targets == [] && currentUserId == old(currentUserId) && isLoading == old(isLoading)
      ensures fault.Some? ==> r == Failure(fault.value) && outcome == NoAction && auth.localStorage == old(auth.localStorage)
      ensures fault.None? ==> r == Success(()) && outcome == RedirectedToLogin && !auth.IsLoggedIn()
    {
      targets := [];
      r := auth.Logout(fault);
      outcome := if r.Success? then RedirectedToLogin else NoAction;
    }
  }
}
