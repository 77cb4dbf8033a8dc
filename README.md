# Blob artifact provider and Jacoco Gradle coverage enabler: a verified model

Two adapters from a collection of build-pipeline task packages.

- **Jacoco Gradle coverage enabler** (`codecoverage-tools/jacoco/jacoco.gradle.ccenabler.ts`).
  It decodes the coverage properties map (the multi-module flag, the Gradle 5+ flag,
  and the Gradle major version, where the string `"null"` means no version). It turns
  package-style class filters into Gradle file patterns: trim, `.` to `/`, split on
  `:`, skip empty tokens, then `'tok/**'` for tokens ending in `*` and `'tok.class'`
  for all others. It picks one of four template generators by module type
  (single or multi) and template version (V2 exactly when the major version is
  at least 6). Module `JacocoGradle`.
- **Blob artifact provider** (`az-blobstorage-provider/azureBlobStorageProvider.ts`).
  It keeps a prefix folder, normalised to end in `/`. It uploads an item to
  `prefix + path`. When listing, it strips the prefix from blob names unless items
  keep it. When downloading, it re-adds the prefix, then renames the item to its
  basename. Nested listing always fails. Module `BlobProvider`.

The JavaScript built-ins these rely on are modelled in their own modules:
`JsString` (`trim`, `split`, `join`, `indexOf`, `replace` with a string pattern),
`JsNumber` (`Number(...)` of a version string) and `PosixPath` (`path.basename`).
`Wrappers` holds `Option` and `Result`. A thrown error is a `Failure` carrying its message.

The model follows the code:
- A wildcard token keeps its star: `com.foo.*` becomes `'com/foo/*/**'`, not `com/foo/**`.
- The listing removes only the first occurrence of the prefix, so an item path can
  still start with the prefix (`p/p/a` lists as `p/a`).
- The listed name is trimmed even when it does not contain the prefix.
- The selector's error branch cannot be reached.

Outcomes of the storage service (upload URL or error, download stream or error,
listing) and of the file append are parameters of the methods that use them.

## Model

| member | source | states |
|---|---|---|
| `JacocoGradle.DecodeProperties` | common-npm-packages/codecoverage-tools/jacoco/jacoco.gradle.ccenabler.ts:21-28 | each flag is set exactly when its value is the string "true"; the version is null exactly when its value is "null", NaN when it is absent, and otherwise `Number` of its value; the build file, class filter, class-file directories and report directory are read under their keys |
| `JacocoGradle.FilterEntry` | common-npm-packages/codecoverage-tools/jacoco/jacoco.gradle.ccenabler.ts:54 | the pattern is quoted at both ends, holds the token right after the opening quote, ends in `/**'` for a token ending in `*` and in `.class'` otherwise, and is exactly that much longer than the token (5 or 8 characters) |
| `JacocoGradle.FilterEntryInjective` | common-npm-packages/codecoverage-tools/jacoco/jacoco.gradle.ccenabler.ts:54 | different tokens give different patterns |
| `JacocoGradle.NonEmptyTokens` | common-npm-packages/codecoverage-tools/jacoco/jacoco.gradle.ccenabler.ts:53 | reference filter: keeps exactly the non-empty tokens, each taken from the input; that it keeps their order and their repeats, as the `forEach` does, comes from its definition, which is the reference the loop is proved against |
| `JacocoGradle.FilterEntries` | common-npm-packages/codecoverage-tools/jacoco/jacoco.gradle.ccenabler.ts:52-56 | the loop's list: as many patterns as non-empty tokens, the k-th being the pattern of the k-th non-empty token |
| `JacocoGradle.FilterEntriesWellFormed` | common-npm-packages/codecoverage-tools/jacoco/jacoco.gradle.ccenabler.ts:52-54 | tokens without `.` give patterns that are quoted and have a `.` only in their `.class'` suffix |
| `JacocoGradle.IsNullOrWhitespace` | common-npm-packages/codecoverage-tools/jacoco/jacoco.gradle.ccenabler.ts:51 | true exactly when the filter is absent or every character of it is whitespace |
| `JacocoGradle.TrimToEmptyString` | common-npm-packages/codecoverage-tools/jacoco/jacoco.gradle.ccenabler.ts:52 | an absent filter gives the empty string and a present one gives its trim (so the result has no whitespace at either end, is empty exactly when the filter is absent or blank, and is never longer than the filter) |
| `JacocoGradle.FilterEntryWellFormed` | common-npm-packages/codecoverage-tools/jacoco/jacoco.gradle.ccenabler.ts:54 | a non-empty token without `.` gives a pattern that is quoted and has a `.` only in its `.class'` suffix |
| `JacocoGradle.FilterTokens` | common-npm-packages/codecoverage-tools/jacoco/jacoco.gradle.ccenabler.ts:52 | the tokens hold no `.` and no `:`, and joined with `:` they give the trimmed filter with `.` replaced by `/` |
| `JacocoGradle.FilterPatterns` | common-npm-packages/codecoverage-tools/jacoco/jacoco.gradle.ccenabler.ts:48-61 | an absent, empty or blank filter gives no pattern; every pattern is well formed |
| `JacocoGradle.FilterPatternsCorrespond` | common-npm-packages/codecoverage-tools/jacoco/jacoco.gradle.ccenabler.ts:52-56 | for a non-blank filter the patterns match the non-empty tokens one to one and in order |
| `JacocoGradle.ApplyFilterPattern` | common-npm-packages/codecoverage-tools/jacoco/jacoco.gradle.ccenabler.ts:48-61 | the `forEach`/`push` loop returns exactly `FilterPatterns(filter)` |
| `JacocoGradle.SingleTokenFilter` | common-npm-packages/codecoverage-tools/jacoco/jacoco.gradle.ccenabler.ts:52-56 | a trimmed filter without `:` gives the single pattern of its dot-converted self |
| `JacocoGradle.WildcardFilterExample` | common-npm-packages/codecoverage-tools/jacoco/jacoco.gradle.ccenabler.ts:52-54 | `com.foo.*` gives `'com/foo/*/**'` |
| `JacocoGradle.ClassFilterExample` | common-npm-packages/codecoverage-tools/jacoco/jacoco.gradle.ccenabler.ts:52-54 | `com.foo.Bar` gives `'com/foo/Bar.class'` |
| `JacocoGradle.ModuleType` | common-npm-packages/codecoverage-tools/jacoco/jacoco.gradle.ccenabler.ts:71 | "multi" or "single", and "multi" exactly when the project is multi-module |
| `JacocoGradle.TemplateVersion` | common-npm-packages/codecoverage-tools/jacoco/jacoco.gradle.ccenabler.ts:72 | "V1" or "V2", and "V2" exactly when the version is present and at least 6; a null or NaN version gives "V1" |
| `JacocoGradle.GetJacocoGradleEnablerFunction` | common-npm-packages/codecoverage-tools/jacoco/jacoco.gradle.ccenabler.ts:70-86 | the switch always finds a case (the error is unreachable); multi-module exactly when `isMultiModule`; V2 exactly when the version is present and at least 6 |
| `JacocoGradle.EnablersDistinct` | common-npm-packages/codecoverage-tools/jacoco/jacoco.gradle.ccenabler.ts:74-82 | equal choices come from the same module type and template version, so the four combinations reach four enablers |
| `JacocoGradle.SelectionFromProperties` | common-npm-packages/codecoverage-tools/jacoco/jacoco.gradle.ccenabler.ts:23-34 | from the raw map: the multi-module V2 template is chosen exactly when `ismultimodule` is "true" and the version is not "null" and reads as at least 6; a V2 template is chosen exactly when the version is present, not "null", and reads as at least 6 |
| `JacocoGradle.SelectionExamples` | common-npm-packages/codecoverage-tools/jacoco/jacoco.gradle.ccenabler.ts:23-34 | ("true", "6") gives multi V2; ("false", "5") gives single V1; ("True", "null") gives single V1 |
| `JacocoGradle.JacocoGradleCodeCoverageEnabler.EnableCodeCoverage` | common-npm-packages/codecoverage-tools/jacoco/jacoco.gradle.ccenabler.ts:16-46 | records the build file, hands the joined exclude/include patterns and the selected enabler to the template, and rejects exactly when the append fails |
| `JsString.Trim` | common-npm-packages/az-blobstorage-provider/azureBlobStorageProvider.ts:152 | the result is the stretch of the input that starts right after its leading whitespace, everything after that stretch is whitespace, the result has no whitespace at either end, and it is empty exactly when the input is all whitespace |
| `JsString.TrimIdempotent` | common-npm-packages/az-blobstorage-provider/azureBlobStorageProvider.ts:152 | trimming twice is trimming once |
| `JsString.Join` | common-npm-packages/codecoverage-tools/jacoco/jacoco.gradle.ccenabler.ts:35 | the empty list joins to the empty string; the first token opens the result; with more tokens a separator follows it and the rest is the join of the remaining tokens |
| `JsString.ReplaceAllChar` | common-npm-packages/codecoverage-tools/jacoco/jacoco.gradle.ccenabler.ts:52 | every `.` becomes `/` and every other character stays |
| `JsString.Split` | common-npm-packages/codecoverage-tools/jacoco/jacoco.gradle.ccenabler.ts:52 | at least one token, none holds the separator, and joining them gives the input back |
| `JsString.SplitJoin` | common-npm-packages/codecoverage-tools/jacoco/jacoco.gradle.ccenabler.ts:52 | splitting the join of separator-free tokens gives the tokens back |
| `JsString.IndexOf` | common-npm-packages/az-blobstorage-provider/azureBlobStorageProvider.ts:151-152 | found exactly when the pattern occurs, and then at its first occurrence |
| `JsString.ReplaceFirst` | common-npm-packages/az-blobstorage-provider/azureBlobStorageProvider.ts:151-152 | only the first occurrence is replaced; with no occurrence the string is unchanged |
| `JsString.RemoveLeadingOccurrence` | common-npm-packages/az-blobstorage-provider/azureBlobStorageProvider.ts:151-152 | removing the first occurrence of a leading prefix removes exactly that prefix |
| `JsNumber.ToNumber` | common-npm-packages/codecoverage-tools/jacoco/jacoco.gradle.ccenabler.ts:28 | with surrounding whitespace ignored: an absent value is NaN; a blank string is 0; a string of digits is its decimal value; digits followed by anything but `.` (such as `6abc`) are NaN; digits, `.` and digits read as the whole part, and digits, `.` and anything else are NaN; a sign followed by digits is the signed value; text starting with anything but a digit, a sign or `.` is NaN |
| `JsNumber.ToNumberOfDecimal` | common-npm-packages/codecoverage-tools/jacoco/jacoco.gradle.ccenabler.ts:28 | the decimal notation of every natural number reads back as that number |
| `PosixPath.Basename` | common-npm-packages/az-blobstorage-provider/azureBlobStorageProvider.ts:105 | no `/` in the result; it ends the path once trailing `/` are dropped, and when it is shorter than that the character right before it is `/`; empty exactly when the path is only `/` |
| `PosixPath.BasenameOfName` | common-npm-packages/az-blobstorage-provider/azureBlobStorageProvider.ts:105 | a name without `/` is its own basename |
| `PosixPath.BasenameIdempotent` | common-npm-packages/az-blobstorage-provider/azureBlobStorageProvider.ts:105 | renaming to the basename twice changes nothing the second time |
| `BlobProvider.NormalizePrefix` | common-npm-packages/az-blobstorage-provider/azureBlobStorageProvider.ts:36-40 | empty exactly when the option is absent or empty; otherwise it starts with the option, ends in `/`, and is one character longer only when the option lacked the `/` |
| `BlobProvider.NormalizePrefixIdempotent` | common-npm-packages/az-blobstorage-provider/azureBlobStorageProvider.ts:36-40 | normalising twice is normalising once |
| `BlobProvider.AzureBlobProvider.constructor` | common-npm-packages/az-blobstorage-provider/azureBlobStorageProvider.ts:31-52 | the prefix is the normalised option (empty or ending in `/`); items keep the prefix only when the flag is given and true |
| `BlobProvider.UploadBlobPath` | common-npm-packages/az-blobstorage-provider/azureBlobStorageProvider.ts:57 | the upload path is always `prefix + path` (with an empty prefix that is the path itself) |
| `BlobProvider.AzureBlobProvider.PutArtifactItem` | common-npm-packages/az-blobstorage-provider/azureBlobStorageProvider.ts:54-78 | uploads to `UploadBlobPath`; on success records the URL as `destinationUrl` and returns the item; on failure returns the error and leaves the item as it was |
| `BlobProvider.DownloadBlobPath` | common-npm-packages/az-blobstorage-provider/azureBlobStorageProvider.ts:89-93 | the path is `prefix + path` when items do not keep the prefix, and the item path unchanged when they do |
| `BlobProvider.AzureBlobProvider.GetArtifactItem` | common-npm-packages/az-blobstorage-provider/azureBlobStorageProvider.ts:88-113 | reads `DownloadBlobPath`; after a successful download the item's path is the basename of its old path; on failure the item is unchanged |
| `BlobProvider.AzureBlobProvider.GetArtifactItems` | common-npm-packages/az-blobstorage-provider/azureBlobStorageProvider.ts:84-86 | always fails, whatever the item |
| `BlobProvider.StripPrefix` | common-npm-packages/az-blobstorage-provider/azureBlobStorageProvider.ts:151-152 | the first occurrence of the prefix, where `indexOf` finds it, is cut out and the rest trimmed; so a name starting with the prefix loses exactly that start, and a name without the prefix is only trimmed |
| `BlobProvider.ListedItemPath` | common-npm-packages/az-blobstorage-provider/azureBlobStorageProvider.ts:150-155 | the blob name is kept as it is when items keep the prefix or the prefix is empty; otherwise the first occurrence of the prefix is removed and the rest trimmed, so a name starting with the prefix becomes its trimmed remainder; the item path is never longer than the name |
| `BlobProvider.ListThenDownload` | common-npm-packages/az-blobstorage-provider/azureBlobStorageProvider.ts:89-155 | round trip: for a blob `prefix + rest` with `rest` trimmed, the download path of its listed item is the blob's name |
| `BlobProvider.ListedItemsDownloadable` | common-npm-packages/az-blobstorage-provider/azureBlobStorageProvider.ts:89-155 | the same round trip for a constructed provider and any blob name under its prefix |
| `BlobProvider.TrailingSpaceBreaksRoundTrip` | common-npm-packages/az-blobstorage-provider/azureBlobStorageProvider.ts:152 | a blob `p/a ` lists as `a` and downloads from `p/a`, another blob |
| `BlobProvider.StripPrefixAtFirstOccurrence` | common-npm-packages/az-blobstorage-provider/azureBlobStorageProvider.ts:151-152 | wherever it lies, the occurrence of the prefix with none before it is the one cut out, and the rest is trimmed |
| `BlobProvider.FirstOccurrenceIsIndexOf` | common-npm-packages/az-blobstorage-provider/azureBlobStorageProvider.ts:151-152 | the occurrence with none before it is the one `indexOf` (and so `replace`) finds |
| `JsString.RemoveFirstOccurrence` | common-npm-packages/az-blobstorage-provider/azureBlobStorageProvider.ts:151-152 | replacing the first occurrence with the empty string cuts exactly that stretch out |
| `BlobProvider.MiddleOccurrenceStripped` | common-npm-packages/az-blobstorage-provider/azureBlobStorageProvider.ts:151-152 | a blob `x/p/a` under prefix `p/` lists as `x/a`: the occurrence in the middle is removed |
| `BlobProvider.OnlyFirstOccurrenceStripped` | common-npm-packages/az-blobstorage-provider/azureBlobStorageProvider.ts:151-152 | a blob `p/p/a` lists as `p/a`, which still starts with the prefix |
| `BlobProvider.AzureBlobProvider.ConvertBlob` | common-npm-packages/az-blobstorage-provider/azureBlobStorageProvider.ts:143-156 | the callback makes a new file item whose path is `ListedItemPath` of the blob's name |
| `BlobProvider.AzureBlobProvider.ConvertBlobResultToArtifactItems` | common-npm-packages/az-blobstorage-provider/azureBlobStorageProvider.ts:140-160 | one new file item per blob, no two of them the same object (so renaming one leaves the others alone), same length and order, each with `ListedItemPath` of its blob's name |
| `BlobProvider.AzureBlobProvider.GetRootItems` | common-npm-packages/az-blobstorage-provider/azureBlobStorageProvider.ts:80-138 | lists under the provider's prefix; a failed listing rejects with its error; otherwise one new file item per listed blob, no two the same object, in order, each with `ListedItemPath` of its name |

## Left out

- Storage service calls (container creation, chunked and parallel upload, download with retries, paged listing, client and URL construction): network operations of the storage SDK. Their outcomes are parameters. The listing is a function from name prefix to either all blobs in page order or the error of a failed page, which the listing passes on. A failing container creation is not modelled.
- Upload and download time limits: wall-clock cancellation.
- `fileLength` and `lastModified` of listed items: copied from the storage SDK, with date parsing.
- Logging, localisation, and the `error.details.message` read in the catch blocks. Errors carry their message or the message key (`GetArtifactItemsNotSupported`, `FailedToAppendCC`).
- `dispose`: a no-op with no state to model.
- The `globalThis` workaround and the resource-path setup: runtime plumbing.
- `extractFilters` (in the base coverage enabler class) is not part of this model. `EnableCodeCoverage` takes it as a function parameter and applies it to the class filter.
- The template generators in `codecoverageconstants` are not part of this model. The selector returns a tag, and `EnableCodeCoverage` returns the arguments the chosen generator receives instead of its text.
- `util.appendTextToFileSync` is file I/O: its success is a parameter. The source of `util.isNullOrWhitespace` and `util.trimToEmptyString` is not part of this model; the two calls are modelled from what their names say, as "absent or trims to empty" and "absent gives empty, else trim".
- JsNumber.ToNumber: only decimal literals (optional sign, digits, optional fraction, or a leading `.`) are read. The contract states unsigned literals and signed whole numbers; a signed fraction, a lone sign and a literal starting with `.` are computed by the definition (a negative fraction takes the floor downwards) but not stated in the contract. Exponent, hex/octal/binary and `Infinity` forms give NaN here, although JavaScript reads them as numbers. A finite number is kept as the floor of the decimal value written; JavaScript's rounding of that value to the nearest double is not modelled, so a string such as `5.9999999999999999`, which JavaScript reads as 6, is 5 here and selects V1 where JavaScript selects V2.
- PosixPath.Basename: POSIX semantics only. On Windows, Node's `path.basename` also splits on `\`.
- Strings are sequences of characters, not UTF-16 code units. The whitespace set of `trim` is ECMAScript's WhiteSpace and LineTerminator.
- `common-npm-packages/azure-arm-rest/Tests/L0.ts`: a test-suite aggregator with no logic.
