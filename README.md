# AR targets client — a Dafny model

The application is an Ionic/Angular client. Its users upload augmented-reality
targets of three kinds, keep them in a Supabase project, and view them in an
AR scene. There are three kinds of target:

- an NFT target: three natural-feature descriptors `.iset`, `.fset` and `.fset3`, plus an optional image;
- a marker target: a `.patt` pattern file;
- an image target.

Users sign in with Firebase, and the session is cached in the browser's local storage.

This project models the rules of that client in Dafny and proves what they promise:

- **Upload flow** (`home.page.ts`, modules `Assets` and `Home`):
  - an extension allow-list on the selection;
  - a first-match classification into the three kinds;
  - where each file is stored;
  - the target record each kind produces;
  - the order of the uploads and the way the first failure ends them;
  - the page's list and spinner.
- **Storage service** (`supabase.service.ts`, modules `Storage` and `Supabase`):
  - the object store and the `targets` table are fields of a `SupabaseService` class;
  - upload names and public URLs, and how `deleteFile` and `deleteNftDescriptors` turn a URL back into paths;
  - descriptor probing;
  - `deleteTarget`'s best-effort clean-up followed by an unconditional row delete.
- **Percent-encoding** (module `Uri`): `encodeURIComponent` and `decodeURIComponent` are defined concretely (UTF-8, then `%XX`), and the round trip is proved.
- **AR view** (`ar-view.component.ts`, module `ArView`):
  - the size a target is drawn at;
  - the loading sequence that probes every NFT target's descriptors;
  - the `detected` flag.
- **Authentication** (`auth.service.ts`, module `Auth`):
  - the `'usuario'` session entry written by `login`/`register` and removed by `logout`;
  - the error-code-to-message map.
- **Sign-in and registration forms** (`login.page.ts`, `register.page.ts`, modules `Forms`, `Login` and `Register`):
  - the validators of the two controls;
  - the fixed-priority error message;
  - the submit guard.

Remote calls are not executed. What they report is a parameter:

- an `Option<Thrown>` fault per call (`UploadFaults`, `DeleteFaults`);
- the authentication provider's answer (`AuthOutcome`);
- a HEAD probe's response (`probe`);
- the clock reading (`now`);
- the id the store assigns to a new row (`newId`);
- the e-mail regular expression's verdict (`isEmail`).

An alert, a toast or a navigation is returned as a value (`Outcome`, `Toast`).

## Model

| member | source | states |
|---|---|---|
| Domain.OwnedBy | myApp/src/app/services/supabase.service.ts:13-20 | the listing is never longer than the table |
| Domain.OwnedByConcat | myApp/src/app/services/supabase.service.ts:13-20 | the listing keeps store order: listing the concatenation of two tables gives the listing of the first, then the listing of the second |
| Domain.OwnedByMembers | myApp/src/app/services/supabase.service.ts:13-20 | a row is listed for a user exactly when it is in the table and its `user_id` is that user |
| Domain.WithId | myApp/src/app/services/supabase.service.ts:91 | `.eq('id', id)` selects a row exactly when it is in the table and carries that id |
| Domain.WithoutId | myApp/src/app/services/supabase.service.ts:108 | after `.delete().eq('id', id)` a row remains exactly when it was there and has another id |
| Text.HyphenateRemovesWhitespace | myApp/src/app/services/supabase.service.ts:23 | `name.replace(/\s+/g, '-')` holds no whitespace and is never longer than the name |
| Text.HyphenateIdempotent | myApp/src/app/services/supabase.service.ts:32 | sanitising a sanitised name changes nothing |
| Text.TrimEmptyIff | myApp/src/app/login/login.page.ts:95 | `trim()` gives `''` exactly when every character is whitespace |
| Text.JoinSplit | myApp/src/app/home/home.page.ts:86 | `split` loses nothing: joining the pieces gives the string back, and no piece holds the separator |
| Text.AfterLastSeparator | myApp/src/app/home/home.page.ts:86 | `split('.').pop()` of `a.e` is `e` when `e` has no dot |
| Text.NatToStringInjective | myApp/src/app/services/supabase.service.ts:23 | distinct `Date.now()` readings give distinct decimal texts |
| Uri.EncodeURIComponent | myApp/src/app/services/supabase.service.ts:28 | the encoded path holds no `?`, so cutting the URL at `?` keeps all of it |
| Uri.DecodeEncode | myApp/src/app/services/supabase.service.ts:44 | `decodeURIComponent(encodeURIComponent(s)) == s` for every string |
| Uri.DecodePlainPrefix | myApp/src/app/services/supabase.service.ts:44 | text without `%` decodes to itself, whatever follows it |
| Storage.UploadPathShape | myApp/src/app/services/supabase.service.ts:23 | the stored path starts with `${uid}/` and its file part holds no whitespace |
| Storage.UploadPathsCollideOnlyAtSameInstant | myApp/src/app/services/supabase.service.ts:32-33 | two uploads of a user overwrite each other only if they are made at the same millisecond under the same sanitised name |
| Storage.DescriptorPaths | myApp/src/app/services/supabase.service.ts:50-56 | one NFT base fans out to exactly `base.fset`, `base.fset3`, `base.iset`, in that order |
| Storage.DecodePublicUrl | myApp/src/app/services/supabase.service.ts:44 | cutting a public URL at `?` and decoding it gives the prefix followed by the stored path |
| Storage.RemovalPathRoundTrip | myApp/src/app/services/supabase.service.ts:41-46 | without a trailing slash on the base URL, the path `deleteFile` derives from an uploaded object's URL is that object's path |
| Storage.RemovalPathWithTrailingSlash | myApp/src/app/services/supabase.service.ts:42-45 | with a trailing slash, the derived path gains a leading `/`, because only the delete side strips the slash |
| Storage.DescriptorRemovalRoundTrip | myApp/src/app/services/supabase.service.ts:50-56 | the base URL recorded for an NFT folder leads `deleteNftDescriptors` to the folder's three descriptor paths |
| Supabase.Report | myApp/src/app/services/supabase.service.ts:66-73 | a probe is found exactly for a 2xx status; any other status is logged with its code; a thrown probe is a failed access |
| Supabase.Cleanups | myApp/src/app/services/supabase.service.ts:94-103 | the clean-up attempts a removal for each non-empty URL column, in the order content, NFT base, pattern |
| Supabase.CleanupsReadColumns | myApp/src/app/services/supabase.service.ts:94-103 | every attempted removal is for the URL its own column holds |
| Supabase.CleanupFor | myApp/src/app/services/supabase.service.ts:95-103 | a column plans exactly one removal when it holds a non-empty URL and none otherwise, and any removal is for the column's own URL |
| Supabase.CleanupOnlyRemoves | myApp/src/app/services/supabase.service.ts:94-106 | the clean-up only removes objects; it never adds or changes one |
| Supabase.CleanupStopsAtFirstFailure | myApp/src/app/services/supabase.service.ts:94-106 | the removals share one `try`, so those after the first failing one have no effect |
| Supabase.CleanupRemovesAllWhenNoneFails | myApp/src/app/services/supabase.service.ts:94-103 | when no removal fails, exactly the targeted objects are gone and every other object stays |
| Supabase.CleanupPairRemovesBoth | myApp/src/app/services/supabase.service.ts:94-103 | two removals that both succeed take away both their targets and leave every other object |
| Supabase.DeleteTargetSpec | myApp/src/app/services/supabase.service.ts:90-112 | a failed lookup, or an id matching no row or several, throws with nothing touched; the clean-up's errors are swallowed; `true` is returned exactly when the lookup and the row delete succeed, and then only the rows with the id are gone |
| Supabase.Apply | myApp/src/app/services/supabase.service.ts:85 | a patch sets `name` and `type` when given and keeps every other column |
| Supabase.Updated | myApp/src/app/services/supabase.service.ts:84-88 | `.update(patch).eq('id', id)` patches exactly the rows with the id, in place, keeping the table's length and order |
| Supabase.UpdatedOwnedBy | myApp/src/app/services/supabase.service.ts:84-88 | an update never moves a row between users' listings |
| Supabase.SupabaseService.ListTargets | myApp/src/app/services/supabase.service.ts:13-20 | `listTargets` returns the user's rows, or throws the store's error |
| Supabase.SupabaseService.StorageUpload | myApp/src/app/services/supabase.service.ts:24-27 | an upload writes or overwrites one object and returns its path; a failed one changes nothing |
| Supabase.SupabaseService.StorageRemove | myApp/src/app/services/supabase.service.ts:46-47 | one remove call deletes all its paths; a failed one changes nothing |
| Supabase.SupabaseService.UploadImage | myApp/src/app/services/supabase.service.ts:22-29 | the file is stored at `${uid}/${now}-${sanitised name}` and the public URL of that path is returned |
| Supabase.SupabaseService.UploadFile | myApp/src/app/services/supabase.service.ts:31-39 | the same path and URL as `uploadImage` |
| Supabase.SupabaseService.DeleteFile | myApp/src/app/services/supabase.service.ts:41-48 | a URL that does not decode throws `URIError`; otherwise exactly the derived path is removed |
| Supabase.SupabaseService.DeleteNftDescriptors | myApp/src/app/services/supabase.service.ts:50-59 | exactly the three descriptor paths under the base URL are removed, in one call |
| Supabase.SupabaseService.VerifyNftDescriptors | myApp/src/app/services/supabase.service.ts:61-76 | the three descriptor URLs are probed in the order `.fset`, `.fset3`, `.iset`; every probe is reported, and a failed one does not stop the rest |
| Supabase.SupabaseService.SaveTarget | myApp/src/app/services/supabase.service.ts:78-82 | the row is appended under the id the store assigns, and the inserted row is returned |
| Supabase.SupabaseService.UpdateTarget | myApp/src/app/services/supabase.service.ts:84-88 | the table becomes `Updated(old table)` and the updated rows are returned |
| Supabase.SupabaseService.CleanUpRow | myApp/src/app/services/supabase.service.ts:94-106 | the `try` block removes what `RunCleanups` says, stopping at the first failure |
| Supabase.SupabaseService.AttemptCleanup | myApp/src/app/services/supabase.service.ts:95-103 | one `deleteFile` or `deleteNftDescriptors` call fails exactly when `CleanupFails` says; a failure changes nothing, a success leaves the rest of the block to do what `RunCleanups` says |
| Supabase.SupabaseService.CleanupColumn | myApp/src/app/services/supabase.service.ts:95-103 | one `if` of the block: skipped once an earlier removal threw, otherwise the column's removal, after which the rest of the plan is what remains to be done |
| Supabase.SupabaseService.DeleteTarget | myApp/src/app/services/supabase.service.ts:90-112 | the store and the result are those of `DeleteTargetSpec` |
| Auth.FirebaseErrorMessage | myApp/src/app/services/auth.service.ts:55-74 | every code has a non-empty message, and the default message is given exactly to the codes outside the seven listed |
| Auth.FirebaseErrorMessageInjective | myApp/src/app/services/auth.service.ts:55-74 | the seven listed codes have seven different messages |
| Auth.AuthError | myApp/src/app/services/auth.service.ts:24-26 | a rejected attempt throws an `Error` carrying the mapped message |
| Auth.AuthService.GetCurrentUser | myApp/src/app/services/auth.service.ts:46-49 | the stored `'usuario'` entry, or `null` when there is none |
| Auth.AuthService.IsLoggedIn | myApp/src/app/services/auth.service.ts:51-53 | true exactly when `getCurrentUser` is non-null |
| Auth.AuthService.Login | myApp/src/app/services/auth.service.ts:17-27 | a sign-in stores the user under `'usuario'`, and `getCurrentUser` then returns it; a rejection leaves the storage unchanged and throws the mapped message |
| Auth.AuthService.Register | myApp/src/app/services/auth.service.ts:29-39 | the same session write and errors as `login` |
| Auth.AuthService.Logout | myApp/src/app/services/auth.service.ts:41-44 | the entry is removed only once signing out succeeded; afterwards nobody is logged in |
| Assets.InvalidFiles | myApp/src/app/home/home.page.ts:53-57 | the rejected files are exactly the selected ones whose lower-cased name ends with no allowed extension |
| Assets.InvalidFilesEmptyIff | myApp/src/app/home/home.page.ts:54-62 | the selection passes exactly when every file has an allowed extension |
| Assets.Descriptors | myApp/src/app/home/home.page.ts:75-77 | `nftFiles` holds exactly the selected files ending `.iset`, `.fset` or `.fset3` |
| Assets.DescriptorsAppend | myApp/src/app/home/home.page.ts:75-77 | the filter keeps selection order: the descriptors of a concatenation are those of the first part, then those of the second |
| Assets.DescriptorsLength | myApp/src/app/home/home.page.ts:75-81 | `nftFiles.length` is the number of selected files ending with a descriptor suffix |
| Assets.FirstDescriptorIsFound | myApp/src/app/home/home.page.ts:75-82 | `nftFiles[0]`, which names the NFT, is the first descriptor in selection order |
| Assets.Find | myApp/src/app/home/home.page.ts:78-79 | `find` gives the first file satisfying the test, or nothing when none does |
| Assets.Classify | myApp/src/app/home/home.page.ts:78-139 | first match: three descriptors make an NFT upload, else a `.patt` file a marker, else an `image/` file an image, else nothing; the marker and image files are the first ones `find` returns |
| Assets.UpperCaseDescriptorIsNotClassified | myApp/src/app/home/home.page.ts:54-78 | `X.ISET` passes the case-insensitive check but is not a descriptor to the case-sensitive classification |
| Assets.UpperCaseIsetIsAllowed | myApp/src/app/home/home.page.ts:53-57 | a name ending in `.ISET` passes the case-insensitive extension check |
| Assets.StripDescriptorExtension | myApp/src/app/home/home.page.ts:82 | the base name is the first descriptor's name without its one trailing `.iset`/`.fset`/`.fset3` |
| Assets.DescriptorSuffixesExclusive | myApp/src/app/home/home.page.ts:82 | no name ends with two of the three suffixes |
| Assets.DescriptorPathSuffix | myApp/src/app/home/home.page.ts:86-87 | a descriptor is stored at `${folder}.${text after its last dot}` |
| Assets.DescriptorPathIsRemovable | myApp/src/app/home/home.page.ts:85-87 | every uploaded descriptor lands on one of the three paths `deleteNftDescriptors` removes for the folder |
| Assets.FirstDescriptorKeepsItsName | myApp/src/app/home/home.page.ts:82-87 | the first descriptor is stored as `${uid}/${its own name}` |
| Assets.NftRecord | myApp/src/app/home/home.page.ts:94-110 | the NFT record: type `nft`, the base name, `nfturlbase` the folder's public URL, the given content URL, width `"616"` and height `"900"` |
| Assets.MarkerRecord | myApp/src/app/home/home.page.ts:116-122 | the marker record: type `marker`, the file's own name, `patternurl` its public URL |
| Assets.ImageRecord | myApp/src/app/home/home.page.ts:127-133 | the image record: type `image`, the file's own name, `contenturl` its public URL |
| Home.UploadFailed | myApp/src/app/home/home.page.ts:140-142 | a caught `Error` shows its message after `Falló la subida: `; anything else shows `Revisa la consola.` |
| Home.UploadDescriptorsStopsAtFirstFault | myApp/src/app/home/home.page.ts:85-92 | the first failed descriptor upload ends the loop, with the earlier descriptors stored and the later ones not attempted |
| Home.UploadDescriptorsWithoutFault | myApp/src/app/home/home.page.ts:85-92 | without a failure every descriptor is stored at its path |
| Home.UploadDescriptorsFailsOnAnyFault | myApp/src/app/home/home.page.ts:85-92 | a failure of any of the descriptor uploads ends the loop with an error |
| Home.StoreDescriptorsHolds | myApp/src/app/home/home.page.ts:85-92 | the stored descriptors are each at their path, and every object already there stays |
| Home.UploadAssetsSpec | myApp/src/app/home/home.page.ts:67-146 | without a user it only redirects and leaves the spinner alone; with one it always ends with the spinner off and an alert |
| Home.FilesSelectedSpec | myApp/src/app/home/home.page.ts:48-65 | an empty selection does nothing; a selection with a disallowed file only alerts; a non-empty selection of allowed files goes on to `uploadAssets` |
| Home.UnrecognizedSelectionChangesNothing | myApp/src/app/home/home.page.ts:137-139 | a selection of no recognised kind changes neither the store nor the list, and alerts |
| Home.DescriptorFailureAddsNoTarget | myApp/src/app/home/home.page.ts:85-142 | a failed descriptor upload adds no row, leaves the list as it was and shows an error |
| Home.SuccessfulUploadListsNewTarget | myApp/src/app/home/home.page.ts:81-136 | an upload of a recognised selection without failures appends one row with the store's id, owned by the user, and the refreshed list shows it |
| Home.UploadIsAddAndList | myApp/src/app/home/home.page.ts:81-136 | every recognised selection uploaded without failures ends in `addTarget` of a row owned by the user, then `getTargets` |
| Home.NftUploadRecord | myApp/src/app/home/home.page.ts:94-113 | the row an NFT upload adds is the NFT record, with the image's URL or `''` as its content |
| Home.NftCleanupPaths | myApp/src/app/home/home.page.ts:94 | the recorded base URL of an NFT folder decodes to that folder's descriptor paths |
| Home.NftRowCleanups | myApp/src/app/services/supabase.service.ts:94-103 | a row pointing at a folder and at no pattern has its image, if any, removed first, then the folder's descriptors |
| Home.NftCleanupRemovesDescriptors | myApp/src/app/services/supabase.service.ts:94-103 | deleting an NFT row without an image removes its three descriptor paths |
| Home.NftCleanupRemovesImage | myApp/src/app/services/supabase.service.ts:94-103 | deleting an NFT row with an image removes the image and the three descriptor paths |
| Home.DeleteFreshNftRow | myApp/src/app/services/supabase.service.ts:90-112 | deleting a newly added NFT row without failures returns `true` and removes its descriptors and its image |
| Home.WithIdOfFreshRow | myApp/src/app/services/supabase.service.ts:91 | a new row with an unused id is the single row the lookup finds |
| Home.NftUploadThenDeleteLeavesNoObject | myApp/src/app/home/home.page.ts:81-157 | an NFT upload followed by deleting its row, both without failures, returns `true` and leaves none of the uploaded descriptors or the image in the store |
| Home.DeleteSpec | myApp/src/app/home/home.page.ts:148-163 | without a user it only redirects; a declined confirmation does nothing; a reported deletion refreshes the list; a failure keeps the list |
| Home.DeletedTargetIsNotListed | myApp/src/app/home/home.page.ts:156-159 | once the page reports a target deleted, no listed target carries its id |
| Home.HomePage.IonViewWillEnter | myApp/src/app/home/home.page.ts:28-46 | with a user, the list is the user's rows, or empty when listing fails; without one, it is empty and the page redirects; the spinner is off either way |
| Home.HomePage.OnFilesSelected | myApp/src/app/home/home.page.ts:48-65 | the page and the store change as `FilesSelectedSpec` says |
| Home.HomePage.UploadAssets | myApp/src/app/home/home.page.ts:67-146 | the page and the store change as `UploadAssetsSpec` says |
| Home.HomePage.UploadSingle | myApp/src/app/home/home.page.ts:115-136 | the marker and image branches change the page and the store as `SingleUploadSpec` says |
| Home.HomePage.UploadNft | myApp/src/app/home/home.page.ts:81-114 | the NFT branch changes the page and the store as `NftUploadSpec` says |
| Home.HomePage.UploadDescriptorFiles | myApp/src/app/home/home.page.ts:85-92 | the loop stores the descriptors in order until the first error, as `UploadDescriptors` says |
| Home.HomePage.AddAndListTargets | myApp/src/app/home/home.page.ts:112-114 | the row is inserted, then the list is refreshed, and either step's error goes to the `catch` |
| Home.AddAndList | myApp/src/app/home/home.page.ts:112-114 | without failures the row is appended with the store's id, the list is the user's rows, and a row owned by the user is listed |
| Home.HomePage.DeleteTarget | myApp/src/app/home/home.page.ts:148-163 | the page and the store change as `DeleteSpec` says |
| Home.HomePage.Logout | myApp/src/app/home/home.page.ts:194-198 | the list is cleared, and the redirect happens only when signing out succeeds |
| ArView.GetWidth | myApp/src/app/components/ar-view/ar-view.component.ts:89-98 | a non-empty `width` wins; with neither `width` nor `scale` the result is `'20'`; the result is never empty |
| ArView.GetHeight | myApp/src/app/components/ar-view/ar-view.component.ts:100-109 | a non-empty `height` wins; with neither `height` nor `scale` the result is `'30'`; the result is never empty |
| ArView.ScaleGivesWidthAndHeight | myApp/src/app/components/ar-view/ar-view.component.ts:93-106 | with empty or absent columns, a scale `"w h"` gives width `w` and height `h` |
| ArView.OneWordScale | myApp/src/app/components/ar-view/ar-view.component.ts:100-109 | a one-word scale such as `"40"` gives that width and height `'30'` |
| ArView.ScaleWidthIsFirstWord | myApp/src/app/components/ar-view/ar-view.component.ts:93-96 | for any scale holding a space, the width is the text before the first space, or `'20'` when that text is empty |
| ArView.ScaleHeightIsSecondWord | myApp/src/app/components/ar-view/ar-view.component.ts:104-107 | for any scale with at least one space, the height is the text between the first space and the next space or the end, or `'30'` when that text is empty |
| ArView.LeadingSpaceScale | myApp/src/app/components/ar-view/ar-view.component.ts:93-96 | a scale starting with a space has an empty first word, so the width falls back to `'20'` |
| ArView.TrackByTargetId | myApp/src/app/components/ar-view/ar-view.component.ts:84-86 | the tracking key is the target's id, whatever its index |
| ArView.VerifiedBases | myApp/src/app/components/ar-view/ar-view.component.ts:42-47 | no more bases are probed than there are targets |
| ArView.VerifiedBasesAppend | myApp/src/app/components/ar-view/ar-view.component.ts:42-47 | bases are probed in list order: those of a concatenation are those of the first part, then those of the second |
| ArView.VerifiedBasesMembers | myApp/src/app/components/ar-view/ar-view.component.ts:42-47 | a base is probed exactly when some target of type `nft` has it as its non-empty `nfturlbase` |
| ArView.ProbeLogAt | myApp/src/app/components/ar-view/ar-view.component.ts:42-47 | report `i` of the load is about descriptor `i % 3` of base `i / 3`: every descriptor of every base is probed, in order |
| ArView.ArViewComponent.NgOnInit | myApp/src/app/components/ar-view/ar-view.component.ts:28-54 | without a user it records the error and fetches nothing; a failed listing records `Error cargando targets`; otherwise the user's targets are listed and their descriptors probed in list order; `loading` is false on every path |
| ArView.ArViewComponent.VerifyAll | myApp/src/app/components/ar-view/ar-view.component.ts:42-47 | the loop probes `ProbeLog(VerifiedBases(targets))` |
| ArView.ArViewComponent.MarkerFound | myApp/src/app/components/ar-view/ar-view.component.ts:67-70 | `markerFound` sets `detected`, and its frame lets it change nothing else |
| ArView.ArViewComponent.MarkerLost | myApp/src/app/components/ar-view/ar-view.component.ts:71-74 | `markerLost` clears `detected`, and its frame lets it change nothing else |
| Forms.NoWhitespaceValidator | myApp/src/app/login/login.page.ts:94-97 | a value is flagged exactly when it is absent or all whitespace, including empty |
| Forms.ControlErrors | myApp/src/app/login/login.page.ts:23-42 | each error key is reported exactly when its validator fails; the length errors carry the limit and the actual length |
| Forms.EmailControlValid | myApp/src/app/login/login.page.ts:24-32 | an e-mail value passes exactly when it is a non-blank address of at most 100 characters |
| Forms.PasswordControlValid | myApp/src/app/login/login.page.ts:33-41 | a password passes exactly when it has 6 to 30 characters, not all of them whitespace |
| Forms.RequiredLengthText | myApp/src/app/login/login.page.ts:82-87 | a length error embeds the decimal text of its `requiredLength`, which is all digits; a bare `true` gives `undefined` |
| Forms.RequiredLengthTextNamesLimit | myApp/src/app/login/login.page.ts:82-87 | the embedded text identifies the limit: equal texts come from equal required lengths |
| Forms.ErrorMessage | myApp/src/app/login/login.page.ts:74-91 | the message is empty exactly when there are no errors; a `required` error gives the message for `'email'` or the other one |
| Forms.LaterErrorIsHidden | myApp/src/app/login/login.page.ts:76-91 | priority `required` > `email` > `minlength` > `maxlength` > `whitespace`: adding a lower-ranked error never changes the message |
| Forms.FieldErrors | myApp/src/app/login/login.page.ts:73-74 | a control the form does not have reports no errors |
| Forms.GetErrorMessage | myApp/src/app/login/login.page.ts:72-92 | a control's message is empty exactly when it reports no errors, and always empty for a control the form does not have |
| Forms.FormInvalidIffMessage | myApp/src/app/login/login.page.ts:46 | the submit guard rejects the form exactly when one of its controls shows a message |
| Forms.FormValidIff | myApp/src/app/login/login.page.ts:23-42 | the form is valid exactly when the e-mail and the password meet their constraints |
| Forms.InitialFormMessages | myApp/src/app/login/login.page.ts:22-43 | the freshly built form is invalid, and each control asks to be filled in |
| Forms.ShortBlankPasswordMessage | myApp/src/app/login/login.page.ts:82-83 | a short blank password is reported as `Debe tener al menos 6 caracteres`, not as blank |
| Forms.BlankPasswordMessage | myApp/src/app/login/login.page.ts:88-89 | a blank password of an allowed length is reported as blank |
| Forms.LongPasswordMessage | myApp/src/app/login/login.page.ts:85-86 | a password over 30 characters is reported as `No puede superar 30 caracteres` |
| Forms.MinLengthOnlyMessage | myApp/src/app/login/login.page.ts:82-83 | with no `required` or `email` error, a `minlength` error of limit 6 gives `Debe tener al menos 6 caracteres` |
| Forms.MaxLengthOnlyMessage | myApp/src/app/login/login.page.ts:85-86 | with no earlier error, a `maxlength` error of limit 30 gives `No puede superar 30 caracteres` |
| Forms.BadEmailMessage | myApp/src/app/login/login.page.ts:79-81 | a non-empty e-mail value the address pattern rejects shows `Formato de correo inválido` |
| Forms.LongEmailMessage | myApp/src/app/login/login.page.ts:85-86 | under the e-mail control's `maxLength(100)`, an address over 100 characters shows `No puede superar 100 caracteres` |
| Forms.MaxLength100Message | myApp/src/app/login/login.page.ts:85-86 | with no earlier error, a `maxlength` error of limit 100 gives `No puede superar 100 caracteres` |
| Forms.NoCatchAllMessage | myApp/src/app/login/login.page.ts:74-91 | the fallback `Campo inválido` is never shown for the errors a control reports |
| Forms.FailureToast | myApp/src/app/login/login.page.ts:57 | the error toast is red and shows the error's message, or the fallback when there is none |
| Login.LoginPage.NgOnInit | myApp/src/app/login/login.page.ts:22-43 | the form is built with both controls empty |
| Login.LoginPage.GetErrorMessage | myApp/src/app/login/login.page.ts:72-92 | the message is empty exactly when the control reports no error, and always empty for a control the form does not have |
| Login.LoginPage.OnLogin | myApp/src/app/login/login.page.ts:45-59 | an invalid form gets the correction toast and no sign-in; a sign-in stores the session, toasts `Login exitoso` and goes home; a rejection toasts the mapped message and stays |
| Register.RegisterPage.NgOnInit | myApp/src/app/register/register.page.ts:22-43 | the form is built with both controls empty |
| Register.RegisterPage.GetErrorMessage | myApp/src/app/register/register.page.ts:72-92 | the message is empty exactly when the control reports no error, and always empty for a control the form does not have |
| Register.RegisterPage.OnRegister | myApp/src/app/register/register.page.ts:45-59 | an invalid form gets the correction toast and no registration; a registration stores the session, toasts `Registro exitoso` and goes home; a rejection toasts the mapped message and stays |

## Left out

- Remote services: the Supabase SDK, Firebase Authentication and `fetch`. They are not modelled as code. Each call's result (a fault, the provider's answer, a probe's response, the id the store assigns) is a parameter, and the store itself is the state of `SupabaseService`.
- Concurrency: `async`/`await` interleavings. Each operation runs to completion, in program order.
- `Date.now()`: the reading is the parameter `now`.
- Console logging: the lines `verifyNftDescriptors` logs are returned as `ProbeReport` values. All other logging is left out.
- UI plumbing: `AlertController`, `ToastController`, the router and `NavController`. Alerts, toasts and redirects are returned as values; toast duration, position and CSS class are left out.
- `ngAfterViewInit`'s five-second `setInterval` and the `querySelector`/`addEventListener` wiring are left out. Only the two handlers' effect on `detected` is modelled, as `MarkerFound` and `MarkerLost`.
- `ngOnDestroy` is left out: it only clears that timer.
- The confirmation dialog of `deleteTarget`: the user's answer is the parameter `confirmed`, and the dialog's text is left out.
- `editTarget` of the home page builds an alert with two free-text inputs and casts the typed type to the union. The alert is left out. Its store effect is `Supabase.SupabaseService.UpdateTarget` with a `Patch`, which is limited to the three kinds.
- Domain.Target: `type` is the three-valued `Kind`, so a row whose `type` column holds other text cannot be represented.
- Supabase.SupabaseService.ListTargets: the `data || []` fallback is not modelled separately, because the modelled store always answers with a list.
- Auth.AuthService.Login: the method returns the stored `{ uid, email }` pair instead of the provider's full `User` object. No page reads the returned value.
- Auth.AuthService.Login: the local-storage entry is kept as a parsed value. The `JSON.stringify`/`JSON.parse` round trip and a corrupt stored entry are left out.
- Auth.AuthService.Login: a rejection is modelled with an error code. A thrown value without a `code` maps to the default message in the code, which corresponds to any code outside the seven listed.
- Text.ToLower: only ASCII letters are lower-cased. That is all the extension check compares against; the full Unicode case mapping of `toLowerCase` is left out.
- Forms.ControlErrors: lengths count Unicode characters, whereas JavaScript counts UTF-16 units. The two differ only for characters outside the Basic Multilingual Plane.
- Forms.ControlErrors: the `Validators.email` pattern is the parameter `isEmail`; the regular expression itself is not modelled.
- The Angular validators are library code, not part of this repository. They are modelled by their documented behaviour:
  - `required` flags `null` and `''`;
  - `email`, `minLength` and `maxLength` skip an empty value;
  - the length errors carry `requiredLength` and `actualLength`.
- Uri.EncodeURIComponent: lone surrogates, which make `encodeURIComponent` throw, cannot occur in a Dafny string and are left out.
- NFT descriptors: the upload rule counts files ending `.iset`, `.fset` or `.fset3` and needs exactly three of them. It does not require one of each. Three `.fset` files are accepted, and they all go to the same path. The model follows the code.
- myApp/src/app/services/ar-target.service.ts forwards `getTargets`, `addTarget`, `updateTarget` and `deleteTarget` unchanged to `SupabaseService`. The pages here call the service members directly, and only its `ARTarget` interface (lines 4-18) is modelled, as `Domain.Target`.
- myApp/src/app/services/supabase-service.ts, myApp/src/app/services/ar-target-service.ts, myApp/src/app/services/auth-service.ts and myApp/src/app/shared/shared.module.ts are not part of this model. They are unused duplicates, thin SDK wrappers or module declarations with no logic of their own.
