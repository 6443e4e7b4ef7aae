# Submission validation and organisation, modelled in Dafny

The repository collects submissions of materials-science papers. Each submission is a
JSON or YAML file naming a GitHub user, a paper, a claim type, URLs and a list of claims
with instruction steps. Two scripts form its core:

- `scripts/validate_submission.py`: the class `SubmissionValidator`. `validate_file`
  checks one file. It collects human-readable errors in `self.errors`, in the order the
  checks run, and returns whether there were none.
- `scripts/organize_by_username.py`: `organize_files` walks a source directory. It skips
  `.gitkeep`, the two preserved example files and every file whose lower-cased stem
  contains `example_submission`, and ignores files without a `.json`, `.yaml` or `.yml`
  extension. Each remaining file that loads and names a user whose sanitized name is not
  empty is moved into `<target>/<sanitized username>/`, renamed `stem_1.ext`,
  `stem_2.ext`, … while the name is taken. The other remaining files, and files whose
  move fails, are errors. A truthy document that is not a mapping, or whose `username` is
  not a string, makes the script raise and stop; a falsy one (`[]`, `""`, 0, `false`,
  `null`) is counted as an error. It counts moved files and errors, and `main`
  exits with status 1 when there was an error or the script raised.

The model follows the code's own form.

**Modules**
- `Wrappers` — `Option`.
- `Text` — Python's `str.strip`, `isspace`, `isalnum`, `lower`, `replace(c, '')`, and
  decimal rendering of integers.
- `Values` — the parsed document, Python truthiness and `str()`.
- `Paths` — `pathlib` on POSIX paths. A path string is read into a `Path` value: an
  anchor (`""`, `"/"` or `"//"`) and the components between the slashes, with empty
  components and `.` dropped. On top of it: `str()` of a path, `/` with a component,
  `name`, `suffix` and `stem`, and `str.rfind` for the suffix.
- `SubmissionRules` — each check of the validator as a pure function returning the list
  of errors it appends, and the message text of each error. Also the predicates saying,
  rule by rule, what a well-formed submission is.
- `SubmissionFacts` — lemmas connecting the two.
- `SubmissionValidation` — the class `SubmissionValidator`. Its `errors` and `warnings`
  are `seq` fields, and every method appends to `errors` in the code's order. Loops over
  the required fields, the URL fields, the claims and the steps carry invariants tying
  the list built so far to the rule functions.
- `OrganizerRules` — the decisions of `organize_files` as functions: skip rules, the
  extension filter, reading and sanitising the user name, the decision for one file
  (including the documents on which the script raises), the user directory as a `Path`,
  and collision names.
- `Organizer`:
  - A `FileSystem` class whose `files` map, from each file (a directory `Path` and a
    name) to what loading it gives, is what the moves change. A path `exists()` when a
    file is at it or below it, so directories that hold files count.
  - The collision `while` loop (`ChooseTarget`).
  - `Round`, what one pass of the outer loop does with one path, stated on the files
    before and after it. A pass whose document makes the script raise has the outcome
    `Crashed`, and the loop stops after it.
  - The per-file step, the outer loop with its counters, and the exit status of `main`.

**What is proved**
- The validator's error list is exactly the one the rule functions describe.
- An error list is empty exactly when the file holds a well-formed submission.
- Each error appears exactly under its rule's condition. It comes from its own check
  alone, and as often as that check reports it.
- Keys no check reads are ignored.
- The messages about a missing or empty field, a URL, the claim type, `code_url` and a
  claim's instruction name the field they are about. The username messages and the
  empty-claims message contain the words the tests look for.
- Paths are read as pathlib reads them: `Path(str(p))` is p, `Path(s)` is in normal form,
  a trailing slash never changes the name, and it does not change the directories joined
  below a path that starts with a component or is at least three characters long (for
  "", "/" and "//" pathlib itself reads the slash as an anchor), and an empty target
  gives relative user directories.
- A sanitized user name holds only letters, digits, `-` and `_`. It keeps those
  characters in order and is idempotent.
- The collision loop terminates and picks the first name at which nothing exists, file
  or directory. That name never overwrites a file.
- Each pass of the loop does what `Round` states for its path. Only the last pass of a
  run can raise, and a run that did not raise reached every path. `processed` counts the
  passes that moved their file and `errors` those that failed, so, without a crash,
  every eligible file is counted exactly once. `main` exits with 0 exactly when the run
  reached every path and every eligible file was moved.
- No file outside the listed sources is touched, and every new file lies in a user
  directory.

## Model

| member | source | states |
|---|---|---|
| `Text.Strip` | scripts/validate_submission.py:64 | `str.strip()`: the result is empty exactly when the string is all whitespace (Python's `isspace` set), and a non-empty result begins and ends with a non-space; that it is the block left once the whitespace around it is cut is `StripTrims` |
| `Text.StripTrims` | scripts/validate_submission.py:64 | the stripped string is a block of the string with only whitespace before and after it |
| `Text.StripUnique` | scripts/validate_submission.py:64 | any block with only whitespace around it and non-whitespace at both ends is the stripped string, so exactly the leading and trailing whitespace is removed |
| `Text.Lower` | scripts/validate_submission.py:33 | `lower()`: same length, each character lowered |
| `Text.WithoutMembers` | scripts/validate_submission.py:79 | `replace(c, '')` keeps exactly the characters other than c and never lengthens the string |
| `Text.NatToString` | scripts/validate_submission.py:126 | `str(i+1)` is a non-empty string of digits |
| `Text.DecimalRoundTrip` | scripts/validate_submission.py:126 | reading the rendered digits back gives the number |
| `Text.NatToStringInjective` | scripts/organize_by_username.py:91 | different counters render as different strings |
| `Text.IntToString` | scripts/validate_submission.py:76 | `str()` of an integer is non-empty, starts with a digit or a minus sign, and ends with a digit |
| `Values.NonStringRendering` | scripts/validate_submission.py:76 | `str()` of a non-string is non-blank, already stripped, and begins with N, T, F, '-', a digit, '[' or '{' |
| `Values.TextRendering` | scripts/validate_submission.py:76 | the shortcuts used by the rules agree with `str(v).strip()` and with its being empty |
| `Values.Truthy` | scripts/validate_submission.py:91 | Python's `bool()` of a document value: `None`, `""`, 0, `False` and empty lists and dicts are false; read through the rule lemmas below |
| `Values.ToStr` | scripts/validate_submission.py:76 | `str()` of a document value; read through `NonStringRendering` and `TextRendering` |
| `Paths.LastIndexOf` | scripts/validate_submission.py:33 | `str.rfind`, as `Path.suffix` uses it: -1 when the character does not occur, otherwise a position holding it after which it does not occur again |
| `Paths.ParseWellFormed` | scripts/organize_by_username.py:36 | `Path(s)` has an anchor and only components that are non-empty, not `.` and free of '/' |
| `Paths.ParseStr` | scripts/organize_by_username.py:36 | `Path(str(p))` is p for every path object `Path` builds |
| `Paths.ParsePathString` | scripts/organize_by_username.py:36 | the string of an anchor and components reads back as that anchor and those components |
| `Paths.NormalizeFacts` | scripts/organize_by_username.py:36 | `str(Path(s))` has the anchor and components of s, and normalizing it again changes nothing |
| `Paths.PartsJoin` | scripts/organize_by_username.py:36 | components joined with '/' read back as the same components |
| `Paths.PartsTrailingSlash` | scripts/organize_by_username.py:124 | a trailing '/' does not change the components of a path |
| `Paths.PartsTrailingDot` | scripts/organize_by_username.py:36 | a trailing `/.` does not change the components of a path |
| `Paths.AnchorTrailing` | scripts/organize_by_username.py:124 | a trailing '/' does not change the anchor of a path that starts with a component or is longer than any anchor |
| `Paths.ChildJoin` | scripts/organize_by_username.py:83 | `str(Path(dir) / name)` for a component name is the joined string `Join(dir, name)` |
| `Paths.JoinFacts` | scripts/organize_by_username.py:83 | `Path(dir) / name` keeps the anchor of dir, appends the components of name, and prints in normal form |
| `Paths.JoinNormal` | scripts/organize_by_username.py:83 | below a normal-form directory with a component, joining adds exactly one '/' and the name |
| `Paths.JoinDirSlash` | scripts/organize_by_username.py:124 | a trailing '/' on a directory that keeps its anchor does not change what is joined below it |
| `Paths.JoinEmpty` | scripts/organize_by_username.py:83 | below the empty directory, joining gives the bare name, with no leading '/' |
| `Paths.FileName` | scripts/validate_submission.py:33 | `Path(p).name`: the last component, so empty or a component; what it is is stated by `FileNameLast`, `FileNameJoin` and `FileNameTrailing` |
| `Paths.FileNameLast` | scripts/validate_submission.py:33 | when the text after the last '/' is a component, it is the name |
| `Paths.FileNameJoin` | scripts/organize_by_username.py:87 | the name of `dir / name` is name |
| `Paths.FileNameTrailing` | scripts/validate_submission.py:33 | a trailing '/' does not change the name |
| `Paths.FileNameExample` | scripts/validate_submission.py:33 | the name of `sub.json/` is `sub.json` |
| `Paths.Suffix` | scripts/validate_submission.py:33 | `Path.suffix`: at most as long as the name; what it is is stated by `SuffixFacts` |
| `Paths.SuffixFacts` | scripts/validate_submission.py:33 | the suffix is empty or a dot followed by at least one dot-free character, ends the name, and is shorter than it; it is non-empty exactly when the last dot lies strictly inside the name (not first, not last) |
| `Paths.Stem` | scripts/organize_by_username.py:55 | `Path.stem`: at most as long as the name; what it is is stated by `StemSuffixSplit` |
| `Paths.StemSuffixSplit` | scripts/organize_by_username.py:89-92 | stem followed by suffix gives back the name, so the stem is the prefix of the name before the suffix; the stem is non-empty when there is a suffix |
| `SubmissionValidation.SubmissionValidator.constructor` | scripts/validate_submission.py:15-21 | no list, or an empty one, selects the six default required fields; both lists start empty |
| `SubmissionValidation.SubmissionValidator.ValidateFile` | scripts/validate_submission.py:23-70 | resets both lists; afterwards `errors` is exactly the file's error list in check order, `warnings` is empty, and the verdict is true exactly when there is no error |
| `SubmissionValidation.SubmissionValidator.CheckFile` | scripts/validate_submission.py:28-59 | the first failing file-level check (missing file, extension, JSON/YAML syntax, read failure, not a mapping) appends its one error and stops the validation; otherwise nothing is appended and the file's errors are those of its mapping |
| `SubmissionValidation.SubmissionValidator.CheckDocument` | scripts/validate_submission.py:61-68 | appends the required-field errors, then those of `_validate_data_structure` |
| `SubmissionValidation.SubmissionValidator.CheckRequiredFields` | scripts/validate_submission.py:61-65 | the loop appends, field by field in the configured order, "missing" or "cannot be empty" |
| `SubmissionValidation.SubmissionValidator.ValidateDataStructure` | scripts/validate_submission.py:72-139 | appends the errors of the six checks in the order username, claim_type, title, URLs, identifier, claims |
| `SubmissionValidation.SubmissionValidator.CheckUsername` | scripts/validate_submission.py:75-82 | appends the username check's error, if any |
| `SubmissionValidation.SubmissionValidator.CheckClaimType` | scripts/validate_submission.py:85-96 | appends the claim-type and code-URL errors |
| `SubmissionValidation.SubmissionValidator.CheckTitle` | scripts/validate_submission.py:99-101 | appends the title error when the title is present and not a non-blank string |
| `SubmissionValidation.SubmissionValidator.CheckUrls` | scripts/validate_submission.py:104-109 | the loop appends the URL errors for paper_pdf, code_url, data_url in that order |
| `SubmissionValidation.SubmissionValidator.CheckUrl` | scripts/validate_submission.py:106-109 | appends the error of one URL field when it is truthy and, stripped, lacks an http(s) prefix |
| `SubmissionValidation.SubmissionValidator.CheckIdentifier` | scripts/validate_submission.py:112-115 | appends the identifier error when it renders blank |
| `SubmissionValidation.SubmissionValidator.CheckClaims` | scripts/validate_submission.py:118-126 | non-list and empty claims give one error each; otherwise the loop appends each claim's errors, numbered from 1 |
| `SubmissionValidation.SubmissionValidator.CheckClaim` | scripts/validate_submission.py:125-139 | appends the errors of claim k: not a mapping, or its text errors then its instruction errors |
| `SubmissionValidation.SubmissionValidator.CheckClaimText` | scripts/validate_submission.py:128-129 | appends the text error when `claim` is absent or renders blank |
| `SubmissionValidation.SubmissionValidator.CheckInstruction` | scripts/validate_submission.py:130-139 | at most one shape error; for a non-empty list the loop appends an error for each bad step, numbered from 1 |
| `SubmissionRules.Extension` | scripts/validate_submission.py:33 | `Path(filepath).suffix.lower()`; read through `FileValidity` |
| `SubmissionRules.Message` | scripts/validate_submission.py:29-139 | the text appended for each error, as the f-strings write it; its properties are the `*Message` lemmas below |
| `SubmissionRules.DocumentErrors` | scripts/validate_submission.py:61-68 | the errors of a mapping: the required-field loop, then `_validate_data_structure`; characterized by `DocumentStages`, `StageLocality`, `StageCount` and `DocumentValidity` |
| `SubmissionRules.StructureErrors` | scripts/validate_submission.py:72-139 | the errors of `_validate_data_structure`: the six checks in the code's order; read through `DocumentStages` and `StagesIgnore` |
| `SubmissionRules.FileErrors` | scripts/validate_submission.py:23-70 | the errors `validate_file` reports for one file; characterized by `EarlyExits`, `DocumentValidity` and `FileValidity` |
| `SubmissionRules.RequiredFieldErrors` | scripts/validate_submission.py:61-65 | the errors of the required-field loop; characterized by `RequiredFieldFacts` |
| `SubmissionRules.UsernameErrors` | scripts/validate_submission.py:75-82 | the username check; characterized by `UsernameRule` |
| `SubmissionRules.ClaimTypeErrors` | scripts/validate_submission.py:85-96 | the claim-type and `code_url` checks; characterized by `ClaimTypeRule` |
| `SubmissionRules.TitleErrors` | scripts/validate_submission.py:99-101 | the title check; read through `DocumentValidity` |
| `SubmissionRules.UrlErrors` | scripts/validate_submission.py:104-109 | the URL loop; characterized by `UrlFacts` and `UrlCount` |
| `SubmissionRules.IdentifierErrors` | scripts/validate_submission.py:112-115 | the identifier check; read through `DocumentValidity` |
| `SubmissionRules.ClaimsErrors` | scripts/validate_submission.py:118-124 | the claims check; characterized by `ClaimsRule` |
| `SubmissionRules.ClaimErrors` | scripts/validate_submission.py:125-139 | the errors of one claim; characterized by `ClaimErrorsIndexed`, `ClaimErrorsValid`, `ClaimErrorsDetail` and `ClaimStepErrors` |
| `SubmissionRules.InstructionErrors` | scripts/validate_submission.py:130-139 | the errors of one claim's instruction; read through `ClaimErrorsDetail` and `ClaimStepErrors` |
| `SubmissionFacts.RequiredFieldFacts` | scripts/validate_submission.py:61-65 | "missing" is reported for exactly the absent required fields and "cannot be empty" for exactly the present `None`/blank ones, at most one error per entry of the field list, none exactly when all required fields are present and non-empty |
| `SubmissionFacts.CharsetAfterDeletion` | scripts/validate_submission.py:79 | deleting '-' and '_' leaves a non-empty alphanumeric string exactly when the name uses only letters, digits, '-', '_' and has at least one letter or digit |
| `SubmissionFacts.UsernameRule` | scripts/validate_submission.py:75-82 | at most one username error, each under exactly its condition in the code's order; none exactly when the username rule holds |
| `SubmissionFacts.AcceptedUsernameExample` | tests/test_validation.py:22 | "test_user" gets no username error |
| `SubmissionFacts.RefusedUsernameExample` | tests/test_validation.py:179 | "test@user!" gets exactly the character-set error |
| `SubmissionFacts.ClaimTypeRule` | scripts/validate_submission.py:85-96 | invalid type, custom_code without code_url, and no type without code_url each reported exactly under their condition; pip_libraries needs nothing |
| `SubmissionFacts.NonStringClaimType` | scripts/validate_submission.py:86-88 | a non-string claim type is always invalid |
| `SubmissionFacts.UrlFacts` | scripts/validate_submission.py:104-109 | a URL field is reported exactly when it is truthy and, stripped, does not start with http:// or https://; only URL errors for the listed fields appear |
| `SubmissionFacts.UrlCount` | scripts/validate_submission.py:104-109 | over distinct fields each bad URL is reported exactly once |
| `SubmissionFacts.NumberedEmpty` | scripts/validate_submission.py:124 | a loop numbered with `enumerate` reports nothing exactly when every item passes |
| `SubmissionFacts.NumberedMembers` | scripts/validate_submission.py:124 | the numbered loop's errors are exactly, for each number j, those its check gives item j |
| `SubmissionFacts.NumberedAll` | scripts/validate_submission.py:124 | a property of every error the check reports holds of every error of the loop |
| `SubmissionFacts.StepErrorsFacts` | scripts/validate_submission.py:137-139 | step j of claim k is reported exactly when it is not a non-blank string; none exactly when all steps pass |
| `SubmissionFacts.ClaimErrorsIndexed` | scripts/validate_submission.py:125-139 | every error of claim k carries the number k |
| `SubmissionFacts.ClaimErrorsValid` | scripts/validate_submission.py:125-139 | claim k gets no error exactly when it is well-formed |
| `SubmissionFacts.ClaimErrorsDetail` | scripts/validate_submission.py:125-135 | each claim-shape error is reported exactly under its condition |
| `SubmissionFacts.ClaimStepErrors` | scripts/validate_submission.py:136-139 | step errors appear only for an instruction list, for exactly its bad positions |
| `SubmissionFacts.ClaimLoopFacts` | scripts/validate_submission.py:124-139 | the claim loop's errors are exactly those of each numbered claim; none exactly when all claims are well-formed |
| `SubmissionFacts.ClaimsRule` | scripts/validate_submission.py:118-139 | non-list and empty claims give exactly one error each; otherwise claim errors are exactly those of the claims; none exactly when the claims rule holds |
| `SubmissionFacts.ConcatByStage` | scripts/validate_submission.py:61-139 | when each check reports only errors of its own stage, an error is in the concatenation exactly when it is in its stage's part |
| `SubmissionFacts.ConcatCountByStage` | scripts/validate_submission.py:61-139 | under the same condition, it occurs there as often as in its stage's part |
| `SubmissionFacts.DocumentStages` | scripts/validate_submission.py:61-68 | a mapping's error list is its seven checks' lists one after the other |
| `SubmissionFacts.StagesStaged` | scripts/validate_submission.py:72-139 | each check reports only errors of its own kind |
| `SubmissionFacts.StageLocality` | scripts/validate_submission.py:61-139 | an error is in a document's list exactly when the one check of its kind reports it |
| `SubmissionFacts.StageCount` | scripts/validate_submission.py:61-139 | and it occurs as often as that check reports it |
| `SubmissionFacts.DocumentValidity` | scripts/validate_submission.py:56-70 | a mapping gets no error exactly when it is well-formed |
| `SubmissionFacts.EarlyExits` | scripts/validate_submission.py:28-59 | a missing file, a bad extension, a parse or read failure, or a non-mapping each give exactly one error |
| `SubmissionFacts.FileValidity` | scripts/validate_submission.py:23-70 | a file passes exactly when it exists, has a .json/.yaml/.yml extension in any case, parses to a mapping and that mapping is well-formed |
| `SubmissionFacts.RequiredFieldsIgnore` | scripts/validate_submission.py:61-65 | removing a key that is not required does not change the required-field errors |
| `SubmissionFacts.UrlFieldsIgnore` | scripts/validate_submission.py:104-109 | removing a key that is not a URL field does not change the URL errors |
| `SubmissionFacts.UsernameReads` | scripts/validate_submission.py:75-82 | the username check reads only `username` |
| `SubmissionFacts.ClaimTypeReads` | scripts/validate_submission.py:85-96 | the claim-type check reads only `claim_type` and `code_url` |
| `SubmissionFacts.ClaimsReads` | scripts/validate_submission.py:118-139 | the claims check reads only `claims` |
| `SubmissionFacts.StagesIgnore` | scripts/validate_submission.py:72-139 | removing a key no check reads changes no check's errors |
| `SubmissionFacts.UnreadKeysIgnored` | tests/test_validation.py:318-354 | any key no check reads (such as `non_reproducible_claims`) can be removed without changing the errors |
| `SubmissionFacts.FieldMissingMessage` | scripts/validate_submission.py:63 | the message names the missing field |
| `SubmissionFacts.FieldEmptyMessage` | scripts/validate_submission.py:65 | the message names the empty field |
| `SubmissionFacts.UrlMessage` | scripts/validate_submission.py:109 | the message names the URL field |
| `SubmissionFacts.CodeUrlMessage` | scripts/validate_submission.py:96 | the message names `code_url` |
| `SubmissionFacts.CustomCodeMessage` | scripts/validate_submission.py:92 | the message names `code_url` |
| `SubmissionFacts.ClaimTypeMessage` | scripts/validate_submission.py:88 | the message names `claim_type` |
| `SubmissionFacts.InstructionMissingMessage` | scripts/validate_submission.py:131 | the message names `instruction` |
| `SubmissionFacts.InstructionNotListMessage` | scripts/validate_submission.py:133 | the message names `instruction` |
| `SubmissionFacts.InstructionEmptyMessage` | scripts/validate_submission.py:135 | the message names `instruction` |
| `SubmissionFacts.StepMessage` | scripts/validate_submission.py:139 | the message names `instruction` |
| `SubmissionFacts.UsernameMessages` | scripts/validate_submission.py:78-82 | the three username messages contain "username" once lowered |
| `SubmissionFacts.ClaimsEmptyMessage` | scripts/validate_submission.py:122 | the message contains "at least one claim" once lowered |
| `OrganizerRules.CountEligible` | scripts/organize_by_username.py:47-59 | the number of files that are neither skipped nor of another extension, at most the number of paths |
| `OrganizerRules.SanitizeSafe` | scripts/organize_by_username.py:76 | every character of a sanitized name is a letter, digit, '-' or '_' |
| `OrganizerRules.SanitizeSubsequence` | scripts/organize_by_username.py:76 | the kept characters stay in their order |
| `OrganizerRules.SanitizeCounts` | scripts/organize_by_username.py:76 | each safe character is kept as often as it occurs and no other is kept |
| `OrganizerRules.SanitizeIdentity` | scripts/organize_by_username.py:76 | a name is unchanged exactly when it is already safe |
| `OrganizerRules.SanitizeShorter` | scripts/organize_by_username.py:76 | sanitizing never lengthens a name |
| `OrganizerRules.SanitizeIdempotent` | scripts/organize_by_username.py:76 | sanitizing twice is sanitizing once |
| `OrganizerRules.SafeIsPart` | scripts/organize_by_username.py:76-83 | a non-empty sanitized name is a single path component, so `target_path / safe_username` adds exactly one component |
| `OrganizerRules.IsSkipped` | scripts/organize_by_username.py:48-57 | the skip rules: `.gitkeep`, the two preserved examples, a lower-cased stem containing `example_submission`; read through `DecideFacts` and `CountEligible` |
| `OrganizerRules.IsDataFile` | scripts/organize_by_username.py:59 | the lower-cased suffix is `.json`, `.yaml` or `.yml`; read through `DecideFacts` and `CountEligible` |
| `OrganizerRules.Sanitize` | scripts/organize_by_username.py:76 | the sanitized user name; its properties are the `Sanitize…` lemmas above |
| `OrganizerRules.CrashFree` | scripts/organize_by_username.py:69 | the loaded documents on which `data.get('username', '').strip()` does not raise: a mapping whose `username`, if any, is a string; read through `DecideFacts` |
| `OrganizerRules.UsernameOf` | scripts/organize_by_username.py:69 | `data.get('username', '').strip()`: blank exactly when the field is absent or all whitespace, and a non-empty result begins and ends with a non-space |
| `OrganizerRules.Decide` | scripts/organize_by_username.py:48-80 | the decision for one path in the code's order of checks; a move goes to a non-empty name made only of safe characters; characterized by `DecideFacts` |
| `OrganizerRules.DecideFacts` | scripts/organize_by_username.py:48-80 | a file is uncounted exactly when skipped or of another extension; a load failure or falsy document, a document on which `.get` or `.strip()` raises, a blank or absent username, and a move are each decided exactly under their conditions; a move goes to the sanitized user name |
| `OrganizerRules.UserDir` | scripts/organize_by_username.py:83 | `target_path / safe_username` as a path object; read through `UserDirFacts`, `UserDirString`, `UserDirTrailingSlash`, `UserDirNormal` and `UserDirEmptyTarget` |
| `OrganizerRules.UserDirFacts` | scripts/organize_by_username.py:83 | a user directory lies directly below the target, different users get different directories, and the directory of a well-formed target is well formed |
| `OrganizerRules.UserDirString` | scripts/organize_by_username.py:83 | `str(Path(target) / user)` is the joined string `Join(target, user)` |
| `OrganizerRules.UserDirTrailingSlash` | scripts/organize_by_username.py:124 | the documented target `data/organized/` gives the same user directories as `data/organized` |
| `OrganizerRules.UserDirNormal` | scripts/organize_by_username.py:83 | below a normal-form target with a component, the user directory is the target, one '/' and the user name |
| `OrganizerRules.UserDirEmptyTarget` | scripts/organize_by_username.py:83 | with an empty target the user directory is the bare user name, relative to the current directory |
| `OrganizerRules.Candidate` | scripts/organize_by_username.py:87-92 | the k-th name tried: the file's own name, then `stem_k` with the suffix; read through `CandidateInjective`, `CandidatePart`, `ChosenIndexFacts` and `CollisionExample` |
| `OrganizerRules.CandidateInjective` | scripts/organize_by_username.py:87-93 | different counters give different candidate names, the first being the file's own name |
| `OrganizerRules.CandidatePart` | scripts/organize_by_username.py:92 | every name tried for a component is a component: the counter adds only '_' and digits |
| `OrganizerRules.NotTriedYet` | scripts/organize_by_username.py:87-93 | the candidate of a later counter is not among those tried before it |
| `OrganizerRules.TriedBeforeSize` | scripts/organize_by_username.py:87-93 | after k rounds, k distinct names have been tried |
| `OrganizerRules.TriedBeforeWithin` | scripts/organize_by_username.py:87-93 | when every name tried is taken, the tried names are among the taken ones |
| `OrganizerRules.ChosenIndexFacts` | scripts/organize_by_username.py:87-93 | the first free name is unique, is the file's own name exactly when that is free, and its counter never exceeds the number of names taken |
| `OrganizerRules.CollisionExample` | scripts/organize_by_username.py:87-93 | with a.json and a_1.json taken, a.json becomes a_2.json |
| `Organizer.LoadData` | scripts/organize_by_username.py:15-30 | `load_data_file`: the parsed document of an existing file, and `None` exactly when the path is not a file or cannot be read or parsed |
| `Organizer.Exists` | scripts/organize_by_username.py:89 | `exists()`: a file is at the path or below it, so the path is a file or a directory; read through `NamesExist` and `FileExists` |
| `Organizer.NamesIn` | scripts/organize_by_username.py:89 | the names taken in a directory: those of its files and of its subdirectories; read through `NamesExist` |
| `Organizer.NamesExist` | scripts/organize_by_username.py:89 | a name is taken in a directory exactly when `dir / name` exists |
| `Organizer.NamesInFiles` | scripts/organize_by_username.py:89 | the name of a file is taken in its directory |
| `Organizer.FileExists` | scripts/organize_by_username.py:89 | every file exists |
| `Organizer.AfterMove` | scripts/organize_by_username.py:96-98 | the files after `copy2` then `remove` under each fault; read through `AfterMoveFacts` |
| `Organizer.AfterMoveFacts` | scripts/organize_by_username.py:96-98 | a move onto a free path adds the target with the source's contents unless the copy fails, removes the source exactly when both steps succeed, and leaves every other file as it was |
| `Organizer.FileSystem.Move` | scripts/organize_by_username.py:96-103 | `copy2` then `remove` onto a path where nothing exists: succeeds exactly without a fault; a failed copy changes nothing, a failed removal leaves both copies |
| `Organizer.ChooseTarget` | scripts/organize_by_username.py:87-93 | the loop ends with the first candidate name at which nothing exists in the user directory |
| `Organizer.MoveToUser` | scripts/organize_by_username.py:83-103 | moves the file to the first free name in its user directory, never onto an existing file, touching nothing else |
| `Organizer.Round` | scripts/organize_by_username.py:48-103 | one pass of the loop on the files before and after it: skipped, ignored, failed and raising paths change nothing; a loaded file with a usable name goes to the first free candidate in its user directory, its outcome `Moved` or `MoveFailed` as the fault says; read with `RoundOutcome` and `RoundFiles` |
| `Organizer.RoundOutcome` | scripts/organize_by_username.py:48-80 | a pass leaves exactly the ineligible paths uncounted, and its outcome (skipped, ignored, failed, raised, moved or move failed) is exactly the one the decision for the file and the fault call for |
| `Organizer.RoundEligible` | scripts/organize_by_username.py:48-59 | a pass skips or ignores a path exactly when its name is not eligible |
| `Organizer.RoundTarget` | scripts/organize_by_username.py:87-93 | the target of a move is a path where nothing exists, file or directory |
| `Organizer.RoundFiles` | scripts/organize_by_username.py:83-103 | a move never overwrites a file; a successful one puts the contents at the target and removes the source, a failed one keeps the source and leaves the target, if the copy got there, with the source's contents; new files lie in user directories and every other file is kept |
| `Organizer.ProcessFile` | scripts/organize_by_username.py:48-103 | one pass of the loop does exactly what `Round` states for the path |
| `Organizer.Rounds` | scripts/organize_by_username.py:46-103 | the loop went from the files before to the files after through one `Round` per path, in order |
| `Organizer.RoundsExtend` | scripts/organize_by_username.py:46-103 | one more pass extends a run of the loop by one path |
| `Organizer.RunStep` | scripts/organize_by_username.py:46-103 | a run over the first i paths and a pass over path i make a run over the first i + 1 paths |
| `Organizer.RoundsStart` | scripts/organize_by_username.py:46 | a run starts from the files found before the loop |
| `Organizer.RoundsFiles` | scripts/organize_by_username.py:46-103 | a run keeps every file that is not one of its paths, and every file it creates lies in a user directory |
| `Organizer.RoundsEligible` | scripts/organize_by_username.py:46-59 | in a run, exactly the ineligible paths are skipped or ignored |
| `Organizer.MovedCount` | scripts/organize_by_username.py:100 | `processed`: the number of outcomes that are successful moves, at most the number of outcomes |
| `Organizer.ErrorCount` | scripts/organize_by_username.py:64-103 | `errors`: the number of outcomes that are failures, load and user-name ones and failed moves alike, at most the number of outcomes |
| `Organizer.OutcomeStep` | scripts/organize_by_username.py:64-103 | after a pass that did not raise, one more outcome keeps only the last one a crash and adds one to `processed` or `errors` exactly as the outcome is a move or a failure |
| `Organizer.NoCrash` | scripts/organize_by_username.py:46-103 | a run whose last pass did not raise had no pass that raised |
| `Organizer.CountsAdd` | scripts/organize_by_username.py:46-103 | when no pass raised and exactly the ineligible paths are uncounted, moves plus errors are the number of eligible paths |
| `Organizer.ErrorCountZero` | scripts/organize_by_username.py:64-103 | no error was counted exactly when no outcome is a failure |
| `Organizer.RunFacts` | scripts/organize_by_username.py:46-103 | a run over the first n paths counts exactly its eligible paths, keeps every file outside the sources, creates files only in user directories, and, when it reached every path without raising, counts every eligible path once |
| `Organizer.OrganizeFiles` | scripts/organize_by_username.py:33-118 | the loop is a run of `Round`s over the paths in order until one raises; only the last pass can raise, and without that every path is reached; `processed` is the number of moves and `errors` the number of failures, which add up to the number of eligible files when nothing raised; files not among the sources are untouched; new files lie in user directories |
| `Organizer.ProcessAll` | scripts/organize_by_username.py:42-103 | the loop with its counters: a run of `Round`s over the paths in order that stops after the first pass that raises; `processed` is the number of moves and `errors` the number of failures |
| `Organizer.ProcessNext` | scripts/organize_by_username.py:46-103 | the pass for the next path extends the run over the paths before it by one `Round` |
| `Organizer.ExitStatus` | scripts/organize_by_username.py:134-137 | for a run that stops early only on a crash, an error was counted or the run raised exactly when it did not reach every path or some counted outcome is not a move |
| `Organizer.EligibleMoved` | scripts/organize_by_username.py:137 | when exactly the eligible paths are counted, every eligible path was moved exactly when every counted outcome is a move |
| `Organizer.RunOrganizer` | scripts/organize_by_username.py:121-137 | too few arguments or a missing source directory give 1 without touching the disk; otherwise the files are organized below `Path(target)` as a run of `Round`s, and the status is 1 exactly when an error was counted or a document made the script raise, 0 exactly when every path was reached and every eligible file was moved |

## Left out

- Reading files and parsing JSON/YAML are not modelled. A file's content is a given
  `LoadOutcome`: a parsed value, a syntax error from the parser chosen by the
  extension, or another read failure, with the exception text as an opaque string.
  The exception details inside the file-level messages stay opaque strings.
- Numbers in documents are integers. Floats are not modelled, because no check reads them
  beyond truthiness and `str()`.
- `str()` of a list or a dict is rendered only by its brackets (`[...]`, `{...}`). Every
  rule that reads it looks only at blankness, the first characters, or equality with a
  claim type, and all of these are decided by the bracket.
- `isalnum` and `lower` are modelled on ASCII. Python accepts Unicode letters and digits
  there, and Unicode user names are out of scope. `isspace` and `strip` follow Python's
  full whitespace set.
- Paths follow POSIX `pathlib`. Windows drive letters and backslashes are not modelled.
- Printing, the summary and the listing of created user directories
  (`organize_by_username.py:106-116`) are not modelled.
- The command-line handling of `validate_submission.py`'s `main` is not modelled.
- `docs/script.js` is not part of this model.
- `rglob` order: the paths found under the source directory are an input sequence, fixed
  before the loop starts, so the walk's order is whatever the file system gives. Files
  created during the walk are not re-listed. A listed path that is not a file, such as a
  directory, loads as `None`, as `load_data_file` gives for it.
- The disk is a map of files. A directory exists when it holds a file, so an empty
  directory left at a candidate name is not seen by `exists()` in the model.
- `mkdir` calls (`organize_by_username.py:39`, `:84`) are not modelled. Directories are
  implicit in the path of each file. `mkdir` raises when a file already has the path of
  the target or the user directory; the model instead moves the file below that path.
- An uncaught exception is the outcome `Crashed`: the loop stops and `main` exits with
  status 1. The traceback it prints is not modelled.
- The metadata copied by `copy2` is not modelled.
- A move's failure is an input fault per path: the copy fails, or the removal fails after
  the copy.
- Organizer.AfterMove: a failed copy (`CopyFails`) leaves nothing at the target. A real
  `copy2` can fail after writing part or all of the target, for example in `copystat`;
  that partial target is not modelled.
- Organizer.Exists: files are identified by their path as spelled, after pathlib's own
  normalisation only. `..`, symbolic links, and relative versus absolute spellings of the
  same directory are different places in the model, whereas `exists()` asks the operating
  system, which resolves them. When the source and target trees overlap under different
  spellings, the model can keep a name that Python would rename, and then holds one
  physical file under two keys.
- SubmissionValidation.SubmissionValidator.ValidateFile: `warnings` is always empty,
  because the code never appends to it. The test at
  `tests/test_validation.py:318-355` expects a warning for a non-reproducible claim
  without a reason; the code was followed.
- SubmissionRules.UsernameErrors: follows the code, which also refuses a name made only
  of '-' and '_' (such as "---"), because `"".isalnum()` is false. A plain
  `[A-Za-z0-9_-]+` pattern would accept it.
- Error messages are modelled with their exact texts in `SubmissionRules.Message`.
- Text.Strip: its own contract states emptiness and the ends of the result, not that it is
  the string with the surrounding whitespace cut off. That is stated beside it, by
  `StripTrims` (the result is such a block) and `StripUnique` (it is the only one), because
  an existential in the contract of a function used this widely makes every proof that
  mentions it costlier.
- Paths.Suffix: its own contract states only its length. That it is the name from its
  last dot on, exactly when that dot lies strictly inside the name, is stated beside it by
  `SuffixFacts`, because every pass of the organizer's loop reads the suffix, and these
  facts in the function's contract make the loop's proofs costlier.
- Paths.Stem: its own contract states only its length. That it is the name before the
  suffix is stated beside it by `StemSuffixSplit`, for the same reason.
- Paths.FileName: its own contract says only that the name is empty or a component.
  Which component it is, the last, is stated beside it by `FileNameLast`, `FileNameJoin`
  and `FileNameTrailing`, because the name is read through the whole path parser.
