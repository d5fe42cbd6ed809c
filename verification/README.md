# electron-builder: DMG target, AppImage updater, platforms and Keygen provider in Dafny

This project models the decision and string-building rules at the centre of five
electron-builder source files, and proves properties about them:

- **dmg-builder's DMG target** (`dmg.ts`):
  - the volume name and its `${…}` placeholders;
  - the resolution of the `dmg` options: icon, background, format and contents;
  - the image size estimate;
  - the `'name': (x, y)` icon-location list handed to dmgbuild;
  - the retina background rule;
  - the hdiutil argument lists;
  - the layout environment built by `customizeDmg`.
- **dmg-builder's helpers** (`dmgUtil.ts`):
  - the `hdiutil attach` arguments and the device parsed from its output;
  - the default background picture;
  - the `serializeString` resource encoding.
- **electron-updater's AppImage updater** (`AppImageUpdater.ts`):
  - when the updater is active;
  - whether a full download follows the differential attempt;
  - where the new AppImage is installed, and with which environment it is started.
- **app-builder-lib's `Platform`** (`core.ts`): the three platforms, `fromString` and `createTarget`.
- **electron-updater's Keygen provider** (`KeygenProvider.ts`): the base URL, the channel
  precedence, the error wrapping of `getLatestVersion` and `toString`.

Modules follow the source files: `Dmg`, `DmgUtil`, `AppImageUpdater`, `Core` and `KeygenProvider`.
Two helper modules support them:

- `Support` holds Option/Result and the JavaScript string operations the code relies on:
  - `||` on strings;
  - `trim`-emptiness;
  - ASCII `toLowerCase`;
  - a global `replace` with JavaScript's replacement patterns (`$$`, `$&`, `` $` ``, `$'`);
  - `join`.
- `Paths` holds the POSIX `path.basename`, `dirname`, `join` and `resolve` subset.

Everything outside the program is passed in as a parameter:

- environment variables such as APPIMAGE, SNAP, DEBUG_DMG and ELECTRON_BUILDER_COMPRESSION_LEVEL;
- stat results and the build-resource list;
- the output of `hdiutil attach`;
- how the differential downloader ended;
- the answer of the base updater.

Effects are returned as values: argument lists, download steps, the removed file, emitted events and the child environment.

Where the source mutates, the model does too:

- `addLogLevel` pushes onto a shared `ArgList` object, so the retry in `createStageDmg` sees the first attempt's list.
- `computeDmgOptions`, `computeAssetSize`, `computeDmgEntries`, `customizeDmg`,
  `createTarget`, `doInstall` and the download task are methods that build their result step by step.
- Each of these methods is proved against a specification function or an explicit contract.

## Model

| member | source | states |
|---|---|---|
| Dmg.ComputeVolumeName | packages/dmg-builder/src/dmg.ts:131-138 | without a custom title the name is productFilename, a space, bundleShortVersion (or the app version when it is unset or empty) and the arch suffix |
| Dmg.VolumeNameFillsPlaceholders | packages/dmg-builder/src/dmg.ts:140-145 | a custom title made of `$`-free text and any number of `${arch}`, `${shortVersion}`, `${version}`, `${name}`, `${productName}` becomes the text with every placeholder replaced by its value (values free of `$`) |
| Dmg.VolumeNameProductAndVersion | packages/dmg-builder/src/dmg.ts:140-145 | the title `${productName} ${version}` gives the product name, a space and the version |
| Dmg.VolumeNameExpandsPatterns | packages/dmg-builder/src/dmg.ts:141-145 | values go through JavaScript's replacement patterns: a title of just `${productName}` gives the product name with `$$`, `$&`, `` $` `` and `$'` expanded |
| Dmg.VolumeNameWithoutPlaceholders | packages/dmg-builder/src/dmg.ts:140-145 | a custom title containing none of the five placeholders is returned unchanged |
| Dmg.VolumeNameReplacesInOrder | packages/dmg-builder/src/dmg.ts:140-145 | the replacements run in the written order: a value inserted for `${arch}` is itself expanded by the later `${version}` step |
| Dmg.VolumeNameDollarExamples | packages/dmg-builder/src/dmg.ts:145 | with the title `${productName}`, a product name "a$$b" gives "a$b" and a product name "$&" gives the placeholder itself |
| Dmg.SubstituteTitle | packages/dmg-builder/src/dmg.ts:140-145 | a chain of global replaces, over placeholders that differ in their third character and values free of `$`, turns a title written with the placeholders into the title filled with the values |
| Support.ReplaceAllPatternPlain | packages/dmg-builder/src/dmg.ts:141-145 | a global replace whose replacement holds no `$$`, `$&`, `` $` `` or `$'` inserts the replacement literally at every occurrence |
| Support.ExpandPlain | packages/dmg-builder/src/dmg.ts:141-145 | a replacement without any of the four patterns is inserted as it is |
| Dmg.ComputeDmgOptions | packages/dmg-builder/src/dmg.ts:149-196 | fails exactly for a blank icon or for backgroundColor together with background, with the source's messages; only an undefined icon is looked up; background stays null when a colour is set, is the computed default when missing, else resolved against projectDir; a set format and set contents are kept; the default format and the two default contents entries are filled in; every other field is copied |
| Dmg.FillBackground | packages/dmg-builder/src/dmg.ts:160-169 | a background colour together with a picture is the conflict error; with a colour the background stays unset; a missing picture becomes the computed default; a configured one is resolved against projectDir; nothing else changes |
| Dmg.FillFormatAndContents | packages/dmg-builder/src/dmg.ts:171-194 | a configured format and configured contents are kept; otherwise the default format and the two default entries are filled in; nothing else changes |
| Dmg.DefaultFormatIsReadOnly | packages/dmg-builder/src/dmg.ts:171-179 | the default format is UDZO with the compression override, UDRO exactly for "store", UDBZ exactly for "maximum", never a writable format |
| Dmg.ComputeAssetSize | packages/dmg-builder/src/dmg.ts:224-243 | the size is 32768 plus the image size, the icon's size when an icon is set and found (a missing one adds 0) and the background size; so at least 32768 |
| Dmg.ComputeDmgEntries | packages/dmg-builder/src/dmg.ts:323-336 | the loop that adds ",\n" only to a non-empty result yields the entries' items joined by ",\n"; empty exactly when there are no contents |
| Dmg.DefaultAppEntryName | packages/dmg-builder/src/dmg.ts:330-332 | an entry without name or path is named after "productFilename.app" |
| Dmg.DefaultLinkEntryName | packages/dmg-builder/src/dmg.ts:330-332 | the /Applications link is named by its path's basename, "Applications" |
| Dmg.DefaultEntries | packages/dmg-builder/src/dmg.ts:181-194 | the default contents give exactly `'<productFilename>.app': (130, 220)` and `'Applications': (410, 220)` joined by ",\n" |
| Dmg.UnescapeEscapeName | packages/dmg-builder/src/dmg.ts:332 | reading the escaped name back as a quoted literal gives the original name, for every name |
| Dmg.EscapedQuotesFollowBackslash | packages/dmg-builder/src/dmg.ts:332 | every quote in an escaped name is preceded by a backslash |
| Dmg.EscapeNamePlain | packages/dmg-builder/src/dmg.ts:332 | a name without quotes or backslashes is not changed by escaping |
| Dmg.RetinaName | packages/dmg-builder/src/dmg.ts:361 | when `\.([a-z]+)$` matches at index i the name gets "@2x" inserted at i; when it matches nowhere the name is unchanged |
| Dmg.ExtensionAtIsLastDot | packages/dmg-builder/src/dmg.ts:361 | the extension pattern can only match at the last dot of the name |
| Dmg.RetinaNameInsertsMarker | packages/dmg-builder/src/dmg.ts:361 | the retina name is three characters longer, holds "@2x" at the match, and removing it gives the original name back |
| Dmg.TransformBackground | packages/dmg-builder/src/dmg.ts:356-369 | .tiff/.TIFF files are kept; otherwise tiffutil combines the file with its retina variant exactly when that exists; the result is the original file or the .tiff temporary file |
| Dmg.AddLogLevel | packages/dmg-builder/src/dmg.ts:219-222 | pushes "-verbose" or "-quiet" onto the given list and returns that same list |
| Dmg.CreateStageDmg | packages/dmg-builder/src/dmg.ts:199-217 | the first `hdiutil create` arguments, in order, with "-verbose" exactly when DEBUG_DMG is "true"; a transient failure causes one retry whose arguments are the first list plus "-verbose", because the list is shared; the result is tempDmg exactly when the first run or the retry completes, else the error of the last run |
| Dmg.ConvertArguments | packages/dmg-builder/src/dmg.ts:69-73 | the `hdiutil convert` arguments; for UDZO the zlib level from the override (default "9"); the log level last, "-verbose" exactly when DEBUG_DMG is "true" |
| Dmg.IconTextSize | packages/dmg-builder/src/dmg.ts:247-248 | the configured icon text size when it is in 10..16, else 12; always in 10..16 |
| Dmg.HalfRound | packages/dmg-builder/src/dmg.ts:296 | Math.round(k / 2) for an integer k: k <= 2r <= k + 1 |
| Dmg.CustomizeEnvironment | packages/dmg-builder/src/dmg.ts:245-298 | app file name; icon size `|| 80`; icon text size; background colour present exactly with a colour or without a picture (default "#ffffff"); window defaults 100/400 (null only) and 540/380 (falsy); with a reported picture size, window width/height from the window or the picture, x 400 and y centred on 1440 when not set before |
| DmgUtil.ArgList.constructor | packages/dmg-builder/src/dmgUtil.ts:20 | a new argument array holds the given items |
| DmgUtil.ArgList.Push | packages/dmg-builder/src/dmgUtil.ts:22-25 | push appends one argument in place |
| DmgUtil.AttachArguments | packages/dmg-builder/src/dmgUtil.ts:20-25 | "attach", "-noverify", "-noautoopen", then "-readwrite" exactly when requested, then the image path |
| DmgUtil.AttachAndExecute | packages/dmg-builder/src/dmgUtil.ts:18-31 | the argument array built in place equals AttachArguments, and the device is ParseDevice of hdiutil's output |
| DmgUtil.ParseDevice | packages/dmg-builder/src/dmgUtil.ts:27-31 | succeeds exactly when the output starts with "/dev/" and a word character; the device is "/dev/" plus the longest following run of word characters; otherwise "Cannot mount" with the output |
| DmgUtil.ComputeBackground | packages/dmg-builder/src/dmgUtil.ts:47-56 | build-resources background.tiff, else background.png, else the template background.tiff; the chosen file is always named background.tiff or background.png |
| DmgUtil.MatchAll | packages/dmg-builder/src/dmgUtil.ts:63-64 | `match(/.{1,n}/g)`: every piece has 1..n characters and no line terminator |
| DmgUtil.MatchAllKeepsText | packages/dmg-builder/src/dmgUtil.ts:63 | the pieces concatenated are the input without its line terminators |
| DmgUtil.MatchAllEmpty | packages/dmg-builder/src/dmgUtil.ts:63 | the match is null (empty) exactly when the input holds only line terminators |
| DmgUtil.MatchAllPlain | packages/dmg-builder/src/dmgUtil.ts:63-64 | text without line terminators is cut into consecutive pieces of exactly n characters, only the last shorter, and nothing is lost |
| DmgUtil.MatchAllCount | packages/dmg-builder/src/dmgUtil.ts:63 | there are ceil(length / n) pieces |
| DmgUtil.SerializeString | packages/dmg-builder/src/dmgUtil.ts:59-67 | the output starts with two spaces, `$` and `"`, and ends with `"`; the input must hold a matchable character |
| DmgUtil.SerializeLayout | packages/dmg-builder/src/dmgUtil.ts:59-67 | for non-empty input without line breaks, the lines hold 32 characters each except the last, ceil(length / 32) of them, covering the data |
| DmgUtil.SerializeRoundTrip | packages/dmg-builder/src/dmgUtil.ts:59-67 | for non-empty data without spaces or line breaks, removing the framing, the line separators and the group spaces gives the data back |
| Core.Platform.ToString | packages/app-builder-lib/src/core.ts:32-34 | toString is the platform's name, and fromString maps it back to the platform |
| Core.FromString | packages/app-builder-lib/src/core.ts:53-70 | darwin/mac give MAC, win32/windows/win give WINDOWS, linux gives LINUX, after lower-casing; everything else fails with "Unknown platform: " and the lower-cased name |
| Core.FromStringCaseInsensitive | packages/app-builder-lib/src/core.ts:53-54 | names equal up to letter case give the same result |
| Core.FromStringRoundTrip | packages/app-builder-lib/src/core.ts:22-24 | each platform's name, build-configuration key and node name, in any letter case, parse to that platform |
| Core.CreateTarget | packages/app-builder-lib/src/core.ts:36-47 | the only key is the platform; without type and archs it maps to an empty map; otherwise each requested arch (only the current one when none are given) maps to [], [type] or the type list |
| KeygenProvider.NewProvider | packages/electron-updater/src/providers/KeygenProvider.ts:11-22 | multiple range requests are always off; the base URL is https:// + host (api.keygen.sh when absent or empty) + /v1/accounts/A/artifacts?product=P |
| KeygenProvider.Channel | packages/electron-updater/src/providers/KeygenProvider.ts:24-26 | the updater's channel, else the configured one, else "stable", empty strings falling through; never empty |
| KeygenProvider.ToString | packages/electron-updater/src/providers/KeygenProvider.ts:51-54 | `Keygen (account: A, product: P, platform: X, channel: C)` with C the resolved channel |
| KeygenProvider.LatestVersionRequest | packages/electron-updater/src/providers/KeygenProvider.ts:30-40 | the request asks for the resolved channel with the JSON:API Accept header and Keygen-Version 1.1 |
| KeygenProvider.GetLatestVersion | packages/electron-updater/src/providers/KeygenProvider.ts:28-45 | a parsed result is returned; any failure becomes code ERR_UPDATER_LATEST_VERSION_NOT_FOUND with the message "Unable to find latest version on " + toString() + ", please ensure release exists: " + the cause |
| AppImageUpdater.IsUpdaterActive | packages/electron-updater/src/AppImageUpdater.ts:18-28 | active exactly when (APPIMAGE is set or forceDevUpdateConfig) and the base updater is active; when off for lack of APPIMAGE it logs, as info exactly when SNAP is set |
| AppImageUpdater.DownloadDifferential | packages/electron-updater/src/AppImageUpdater.ts:53-76 | a completed differential download needs no full download; a failed one needs it only on Linux |
| AppImageUpdater.DownloadTask | packages/electron-updater/src/AppImageUpdater.ts:38-49 | fails with ERR_UPDATER_OLD_FILE_NOT_FOUND without APPIMAGE; otherwise the steps are exactly: the differential attempt unless disabled, then the full download when disabled or the attempt threw on Linux, then chmod 0o755 |
| AppImageUpdater.HasVersionExamples | packages/electron-updater/src/AppImageUpdater.ts:96 | `\d+\.\d+\.\d+` is found in "MyApp-1.2.3.AppImage" and not in "MyApp.AppImage" |
| AppImageUpdater.HasVersionOfDottedDigits | packages/electron-updater/src/AppImageUpdater.ts:96 | any name holding three non-empty digit runs joined by dots has a version |
| AppImageUpdater.HasVersionAnywhere | packages/electron-updater/src/AppImageUpdater.ts:96 | the test is unanchored: text added on either side keeps a found version |
| AppImageUpdater.FewDotsNoVersion | packages/electron-updater/src/AppImageUpdater.ts:96 | a name with fewer than two dots has no version |
| AppImageUpdater.InstallDestination | packages/electron-updater/src/AppImageUpdater.ts:87-101 | the running file is overwritten when the names agree or its name has no version; otherwise the destination differs from it and is named like the installer |
| AppImageUpdater.InstallDestinationStaysInDirectory | packages/electron-updater/src/AppImageUpdater.ts:96-101 | either way the destination is in the running AppImage's directory and carries the old or the installer's name |
| AppImageUpdater.InstallEnvironment | packages/electron-updater/src/AppImageUpdater.ts:108-119 | APPIMAGE_SILENT_INSTALL is "true"; APPIMAGE_EXIT_AFTER_INSTALL is "true" when not forced to run after, else present exactly when it was and with its inherited value; all other variables are inherited with their values |
| AppImageUpdater.MoveAndLaunch | packages/electron-updater/src/AppImageUpdater.ts:95-120 | `mv -f` of the installer to InstallDestination, "appimage-filename-updated" with the destination exactly when it differs from the running file, the install environment, and a detached spawn when forced to run after, else a waited run |
| AppImageUpdater.DoInstall | packages/electron-updater/src/AppImageUpdater.ts:78-121 | fails with ERR_UPDATER_OLD_FILE_NOT_FOUND without APPIMAGE; the old file is removed first; a missing installer path is reported and gives false; otherwise `mv -f` to InstallDestination, "appimage-filename-updated" exactly when the destination differs, the install environment, and a detached spawn or a waited run |

## Left out

- The rest of `DmgTarget.build` is not modelled: artifact-name expansion, build events, the `hdiutil resize` with its floating-point `Math.ceil(size * 1.1)`, detaching a previously mounted volume, the license, code signing, `internet-enable` with its OS-release parsing, and the blockmap.
- `sanitizeFileName`, applied to the volume name in `build`: builder-util's filename.ts is not part of this model.
- The copy and link tasks of `computeDmgEntries` are left out: `ln -s`, copyDir/copyFile, getResource, and the warning for app paths. Only the string it returns is modelled.
- Dmg.CustomizeEnvironment: covers only the layout variables. These are left out:
  - running dmgbuild through python;
  - the `app-builder dmg` call and its `--icon`/`--background` arguments;
  - `Object.assign` of the other fields app-builder reports;
  - the `effectiveOptionComputed` hook;
  - `volumePath`, `PYTHONIOENCODING` and the inherited process environment.
- Dmg.CustomizeEnvironment: numbers are integers. JavaScript's string/number mix for window values and the float division are therefore not modelled.
- Dmg.HalfRound: exact only for integer heights.
- Dmg.VolumeNameFillsPlaceholders: proved for titles whose text and values contain no `$`. Values with `$` are characterised only for a title of one placeholder (Dmg.VolumeNameExpandsPatterns) and for the `${arch}` → `${version}` chain (Dmg.VolumeNameReplacesInOrder).
- Dmg.ComputeDmgEntries and Dmg.EntryItem: coordinates are integers. Non-integer positions, printed as JavaScript prints numbers, are not modelled.
- Dmg.TransformBackground: `exists` of the retina file and the temporary file are parameters. Running tiffutil is left out.
- Dmg.ComputeAssetSize: the sizes are parameters, and the concurrent stat tasks are replaced by their results in order.
- DmgUtil.AttachAndExecute: only the argument list and the device are modelled. Running the task, `executeFinally`, and `detach` with its timed retry are left out.
- DmgUtil.SerializeString: the input must contain at least one character other than a line terminator, because the source's non-null assertion on `match` fails otherwise.
- DmgUtil.SerializeString and DmgUtil.MatchAll: lengths are counted in Unicode scalar values, not in UTF-16 code units. A character above U+FFFF counts once here and twice in JavaScript, and a surrogate pair is never split between pieces.
- Core.FromString: lower-casing is modelled for ASCII letters only. JavaScript's `toLowerCase` also folds other scripts.
- `Platform.current` is not modelled. The current arch of `createTarget`, taken from `process.arch` in the source, is a parameter.
- KeygenProvider.NewProvider: the base URL is kept as a string. URL parsing by `newBaseUrl` is not part of this model.
- KeygenProvider.GetLatestVersion: the HTTP request, the channel file name, `parseUpdateInfo` and `resolveFiles` are abstract. Their outcome is one parameter, and the error's stack-or-message is one string.
- AppImageUpdater.DownloadTask: a model of effects, given as data. These are left out:
  - `findFile`/`resolveFiles` and `executeDownload`;
  - the differential downloader itself, whose outcome is a parameter;
  - progress events and logging.
- AppImageUpdater.DoInstall: unlinking, `mv`, `spawnLog` and `execFileSync` are returned as values. They are not performed, and their own failures are not modelled.
- `Paths.JoinPath` and `Paths.Resolve` handle empty and "." directories, empty paths and (in `Resolve`) trailing separators as Node does. They do not normalise inner "." and ".." segments or doubled separators; `JoinPath`, like `path.join`, keeps a trailing separator of the name. `path.resolve` of a relative projectDir, which depends on the working directory, is not modelled.
