/**
  What the validator's rules guarantee: which errors appear exactly when,
  that each error names the field or claim it is about, and that a document
  passes exactly when it is well-formed.
 */
module SubmissionFacts {
  import opened Text
  import opened Values
  import opened SubmissionRules

  // ---------------------------------------------------------------------
  // Required fields
  // ---------------------------------------------------------------------

  /** The required-field loop reports "missing" for exactly the absent fields
      and "cannot be empty" for exactly the present `None` or blank ones. */
  lemma {:induction false} RequiredFieldFacts(fields: seq<string>, data: map<string, Value>)
    ensures forall e :: e in RequiredFieldErrors(fields, data) ==>
      (e.FieldMissing? || e.FieldEmpty?) && e.field in fields
    ensures forall f :: FieldMissing(f) in RequiredFieldErrors(fields, data) <==> f in fields && f !in data
    ensures forall f :: FieldEmpty(f) in RequiredFieldErrors(fields, data) <==>
      f in fields && f in data && IsEmptyValue(data[f])
    ensures |RequiredFieldErrors(fields, data)| <= |fields|
    ensures RequiredFieldErrors(fields, data) == [] <==> HasRequiredFields(fields, data)
  {
    if fields != [] {
      var init, last := fields[..|fields| - 1], fields[|fields| - 1];
      RequiredFieldFacts(init, data);
      assert fields == init + [last];
      assert forall f :: f in fields <==> f in init || f == last;
    }
  }

  // ---------------------------------------------------------------------
  // Username
  // ---------------------------------------------------------------------

  /** Deleting '-' and '_' leaves a non-empty alphanumeric string exactly when
      the name uses only letters, digits, '-' and '_' and has a letter or digit. */
  lemma CharsetAfterDeletion(u: string)
    ensures IsAlnumString(Without(Without(u, '-'), '_')) <==> UsernameCharset(u)
  {
    var r := Without(Without(u, '-'), '_');
    WithoutMembers(u, '-');
    WithoutMembers(Without(u, '-'), '_');
    assert forall x :: x in r <==> x in u && x != '-' && x != '_';
    if IsAlnumString(r) {
      forall i | 0 <= i < |u| ensures IsUsernameChar(u[i]) {
        if u[i] != '-' && u[i] != '_' {
          assert u[i] in r;
          var k :| 0 <= k < |r| && r[k] == u[i];
        }
      }
      assert r[0] in r;
      var i :| 0 <= i < |u| && u[i] == r[0];
      assert IsAlnum(u[i]);
    }
    if UsernameCharset(u) {
      var i :| 0 <= i < |u| && IsAlnum(u[i]);
      assert u[i] in r;
      forall k | 0 <= k < |r| ensures IsAlnum(r[k]) {
        assert r[k] in r;
        var j :| 0 <= j < |u| && u[j] == r[k];
        assert IsUsernameChar(u[j]);
      }
    }
  }

  /** The username check reports at most one error: blank first, then a
      character outside letters, digits, '-' and '_' (or none of letters and
      digits at all), then more than 39 characters. */
  lemma UsernameRule(data: map<string, Value>)
    ensures |UsernameErrors(data)| <= 1
    ensures UsernameErrors(data) == [] <==> UsernameOk(data)
    ensures UsernameErrors(data) == [UsernameEmpty] <==>
      "username" in data && IsBlankText(data["username"])
    ensures UsernameErrors(data) == [UsernameCharacters] <==>
      "username" in data && !IsBlankText(data["username"])
      && !UsernameCharset(StrippedText(data["username"]))
    ensures UsernameErrors(data) == [UsernameTooLong] <==>
      "username" in data && UsernameCharset(StrippedText(data["username"]))
      && |StrippedText(data["username"])| > MaxUsernameLength
  {
    if "username" in data {
      var v := data["username"];
      CharsetAfterDeletion(StrippedText(v));
      if !v.Str? {
        NonStringRendering(v);
      }
    }
  }

  /** The tests' own user name, "test_user", is accepted. */
  lemma AcceptedUsernameExample()
    ensures UsernameErrors(map["username" := Str("test_user")]) == []
  {
    var u := "test_user";
    assert !IsSpace(u[0]) && !IsSpace(u[|u| - 1]);
    StripKeepsTrimmed(u);
    assert forall i | 0 <= i < |u| :: IsUsernameChar(u[i]);
    assert IsAlnum(u[0]);
    CharsetAfterDeletion(u);
  }

  /** The tests' "test@user!" is refused for its characters. */
  lemma RefusedUsernameExample()
    ensures UsernameErrors(map["username" := Str("test@user!")]) == [UsernameCharacters]
  {
    var u := "test@user!";
    assert !IsSpace(u[0]) && !IsSpace(u[|u| - 1]);
    StripKeepsTrimmed(u);
    assert !IsUsernameChar(u[4]);
    UsernameRule(map["username" := Str(u)]);
  }

  // ---------------------------------------------------------------------
  // claim_type and code_url
  // ---------------------------------------------------------------------

  /** `claim_type` must be one of the two types; `custom_code`, or no claim
      type at all, needs a truthy `code_url`; `pip_libraries` needs nothing. */
  lemma ClaimTypeRule(data: map<string, Value>)
    ensures ClaimTypeInvalid in ClaimTypeErrors(data) <==>
      "claim_type" in data && ClaimTypeOf(data) !in ClaimTypes
    ensures CodeUrlRequiredForCustomCode in ClaimTypeErrors(data) <==>
      "claim_type" in data && ClaimTypeOf(data) == "custom_code" && !HasTruthy(data, "code_url")
    ensures CodeUrlRequired in ClaimTypeErrors(data) <==>
      "claim_type" !in data && !HasTruthy(data, "code_url")
    ensures "claim_type" in data && ClaimTypeOf(data) == "pip_libraries" ==> ClaimTypeErrors(data) == []
    ensures forall e :: e in ClaimTypeErrors(data) ==>
      e == ClaimTypeInvalid || e == CodeUrlRequiredForCustomCode || e == CodeUrlRequired
    ensures ClaimTypeErrors(data) == [] <==> ClaimTypeOk(data)
  {
  }

  /** A claim type that is not a string never names one of the two types. */
  lemma NonStringClaimType(data: map<string, Value>)
    requires "claim_type" in data && !data["claim_type"].Str?
    ensures ClaimTypeInvalid in ClaimTypeErrors(data)
  {
    NonStringRendering(data["claim_type"]);
    assert ClaimTypeOf(data)[0] != "custom_code"[0] && ClaimTypeOf(data)[0] != "pip_libraries"[0];
  }

  // ---------------------------------------------------------------------
  // URLs
  // ---------------------------------------------------------------------

  /** The URL loop reports a field exactly when it is truthy and, stripped,
      does not start with http:// or https://. */
  lemma {:induction false} UrlFacts(fields: seq<string>, data: map<string, Value>)
    ensures forall e :: e in UrlErrors(fields, data) ==> e.UrlInvalid? && e.field in fields
    ensures forall f :: UrlInvalid(f) in UrlErrors(fields, data) <==> f in fields && !UrlOk(data, f)
    ensures UrlErrors(fields, data) == [] <==> UrlsOk(fields, data)
  {
    if fields != [] {
      var init, last := fields[..|fields| - 1], fields[|fields| - 1];
      assert fields == init + [last];
      UrlFacts(init, data);
      assert forall f :: f in fields <==> f in init || f == last;
    }
  }

  // ---------------------------------------------------------------------
  // Claims and instruction steps
  // ---------------------------------------------------------------------

  /** A numbered loop reports nothing exactly when every item passes, provided
      the check of a single item reports nothing exactly when that item passes. */
  lemma {:induction false} NumberedEmpty(
    check: (nat, Value) -> seq<ValidationError>, ok: Value -> bool, items: seq<Value>, n: nat)
    requires n <= |items|
    requires forall j: nat, v: Value :: |check(j, v)| == 0 <==> ok(v)
    ensures |Numbered(check, items, n)| == 0 <==> forall i :: 0 <= i < n ==> ok(items[i])
  {
    if n > 0 {
      NumberedEmpty(check, ok, items, n - 1);
    }
  }

  /** When every error the check gives item number j carries j (as `number`
      reads it), the loop's errors are exactly, for j from 1 to n, those the
      check gives item j. */
  lemma {:induction false} NumberedMembers(
    check: (nat, Value) -> seq<ValidationError>, number: ValidationError -> int, items: seq<Value>, n: nat)
    requires n <= |items|
    requires forall j: nat, v: Value, e :: e in check(j, v) ==> number(e) == j
    ensures forall e :: e in Numbered(check, items, n) <==>
      1 <= number(e) <= n && e in check(number(e), items[number(e) - 1])
  {
    if n > 0 {
      NumberedMembers(check, number, items, n - 1);
      var earlier, last := Numbered(check, items, n - 1), check(n, items[n - 1]);
      assert Numbered(check, items, n) == earlier + last;
      forall e ensures e in earlier + last <==> 1 <= number(e) <= n && e in check(number(e), items[number(e) - 1]) {
        if number(e) == n {
          assert e !in earlier;
        } else {
          assert e !in last;
        }
      }
    }
  }

  /** Whatever holds of every error the check reports holds of every error of the loop. */
  lemma {:induction false} NumberedAll(
    check: (nat, Value) -> seq<ValidationError>, p: ValidationError -> bool, items: seq<Value>, n: nat)
    requires n <= |items|
    requires forall j: nat, v: Value, e :: e in check(j, v) ==> p(e)
    ensures forall e :: e in Numbered(check, items, n) ==> p(e)
  {
    if n > 0 {
      NumberedAll(check, p, items, n - 1);
    }
  }

  /** The step number a step error carries. */
  function StepNumber(e: ValidationError): int {
    if e.StepInvalid? then e.step else 0
  }

  /** The claim number a claim error carries. */
  function ClaimNumber(e: ValidationError): int {
    if e.IsClaimError() then e.claim else 0
  }

  /** Step j (from 1) of claim k is reported exactly when it is not a
      non-blank string, and the steps pass exactly when each of them does. */
  lemma StepErrorsFacts(k: nat, steps: seq<Value>)
    ensures forall e :: e in Numbered(StepCheck(k), steps, |steps|) <==>
      e.StepInvalid? && e.claim == k && 1 <= e.step <= |steps| && !StepOk(steps[e.step - 1])
    ensures |Numbered(StepCheck(k), steps, |steps|)| == 0 <==> StepsOk(steps)
  {
    forall j: nat, v: Value, e | e in StepCheck(k)(j, v) ensures StepNumber(e) == j {
    }
    NumberedMembers(StepCheck(k), StepNumber, steps, |steps|);
    forall j: nat, v: Value ensures |StepCheck(k)(j, v)| == 0 <==> StepOk(v) {
    }
    NumberedEmpty(StepCheck(k), StepOk, steps, |steps|);
  }

  /** The errors of one claim all carry its number. */
  lemma ClaimErrorsIndexed(k: nat, claim: Value)
    ensures forall e :: e in ClaimErrors(k, claim) ==> e.IsClaimError() && e.claim == k
  {
    if claim.Obj? && "instruction" in claim.fields && claim.fields["instruction"].List? {
      StepErrorsFacts(k, claim.fields["instruction"].items);
    }
  }

  /** A claim gets no error exactly when it is well-formed. */
  lemma ClaimErrorsValid(k: nat, claim: Value)
    ensures |ClaimErrors(k, claim)| == 0 <==> ClaimOk(claim)
  {
    if claim.Obj? && "instruction" in claim.fields && claim.fields["instruction"].List? {
      StepErrorsFacts(k, claim.fields["instruction"].items);
    }
  }

  /** A non-mapping claim gets exactly one error; a mapping gets one for
      missing or blank text and at most one of the three instruction-shape
      errors. */
  lemma ClaimErrorsDetail(k: nat, claim: Value)
    ensures !claim.Obj? ==> ClaimErrors(k, claim) == [ClaimNotObject(k)]
    ensures ClaimNotObject(k) in ClaimErrors(k, claim) <==> !claim.Obj?
    ensures claim.Obj? ==> (ClaimTextMissing(k) in ClaimErrors(k, claim) <==>
      "claim" !in claim.fields || IsBlankText(claim.fields["claim"]))
    ensures claim.Obj? ==> (InstructionMissing(k) in ClaimErrors(k, claim) <==> "instruction" !in claim.fields)
    ensures claim.Obj? ==> (InstructionNotList(k) in ClaimErrors(k, claim) <==>
      "instruction" in claim.fields && !claim.fields["instruction"].List?)
    ensures claim.Obj? ==> (InstructionEmpty(k) in ClaimErrors(k, claim) <==>
      "instruction" in claim.fields && claim.fields["instruction"] == List([]))
  {
    if claim.Obj? && "instruction" in claim.fields && claim.fields["instruction"].List? {
      StepErrorsFacts(k, claim.fields["instruction"].items);
    }
  }

  /** Step j of a claim is reported only when the instruction is a list, j is
      one of its positions and that step is not a non-blank string. */
  lemma ClaimStepErrors(k: nat, claim: Value)
    ensures forall j: nat :: StepInvalid(k, j) in ClaimErrors(k, claim) <==>
      && claim.Obj? && "instruction" in claim.fields && claim.fields["instruction"].List?
      && 1 <= j <= |claim.fields["instruction"].items|
      && !StepOk(claim.fields["instruction"].items[j - 1])
  {
    if claim.Obj? && "instruction" in claim.fields && claim.fields["instruction"].List? {
      StepErrorsFacts(k, claim.fields["instruction"].items);
    }
  }

  /** The claim loop's errors are exactly the errors each numbered claim's own
      check reports, and there are none exactly when every claim is well-formed. */
  lemma ClaimLoopFacts(claims: seq<Value>)
    ensures forall e :: e in Numbered(ClaimErrors, claims, |claims|) <==>
      e.IsClaimError() && 1 <= e.claim <= |claims| && e in ClaimErrors(e.claim, claims[e.claim - 1])
    ensures |Numbered(ClaimErrors, claims, |claims|)| == 0 <==> forall i :: 0 <= i < |claims| ==> ClaimOk(claims[i])
  {
    forall j: nat, v: Value, e | e in ClaimErrors(j, v) ensures ClaimNumber(e) == j {
      ClaimErrorsIndexed(j, v);
    }
    NumberedMembers(ClaimErrors, ClaimNumber, claims, |claims|);
    forall j: nat, v: Value ensures |ClaimErrors(j, v)| == 0 <==> ClaimOk(v) {
      ClaimErrorsValid(j, v);
    }
    NumberedEmpty(ClaimErrors, ClaimOk, claims, |claims|);
  }

  /** A non-list `claims` gives one error, an empty list another, and
      otherwise the claim errors are exactly those of the claims. */
  lemma ClaimsRule(data: map<string, Value>)
    ensures "claims" in data && !data["claims"].List? ==> ClaimsErrors(data) == [ClaimsNotList]
    ensures "claims" in data && data["claims"] == List([]) ==> ClaimsErrors(data) == [ClaimsEmpty]
    ensures forall e :: e in ClaimsErrors(data) ==> e.IsClaimError() || e == ClaimsNotList || e == ClaimsEmpty
    ensures forall e: ValidationError :: e.IsClaimError() ==> (e in ClaimsErrors(data) <==>
      && "claims" in data && data["claims"].List?
      && 1 <= e.claim <= |data["claims"].items|
      && e in ClaimErrors(e.claim, data["claims"].items[e.claim - 1]))
    ensures ClaimsErrors(data) == [] <==> ClaimsOk(data)
  {
    if "claims" in data && data["claims"].List? {
      ClaimLoopFacts(data["claims"].items);
    }
  }

  // ---------------------------------------------------------------------
  // The whole document
  // ---------------------------------------------------------------------

  /** Which check of `validate_file` reports an error of this kind: 0 for the
      file-level checks, 1 for the required fields, then 2 to 7 for the
      checks of `_validate_data_structure` in the order they run. */
  function Stage(e: ValidationError): nat {
    if e.FieldMissing? || e.FieldEmpty? then 1
    else if e.UsernameEmpty? || e.UsernameCharacters? || e.UsernameTooLong? then 2
    else if e.ClaimTypeInvalid? || e.CodeUrlRequiredForCustomCode? || e.CodeUrlRequired? then 3
    else if e.PaperTitleInvalid? then 4
    else if e.UrlInvalid? then 5
    else if e.IdentifierEmpty? then 6
    else if e.ClaimsNotList? || e.ClaimsEmpty? || e.IsClaimError() then 7
    else 0
  }

  /** The errors of a parsed mapping, check by check, indexed by stage. */
  function Stages(required: seq<string>, data: map<string, Value>): seq<seq<ValidationError>> {
    [[], RequiredFieldErrors(required, data), UsernameErrors(data), ClaimTypeErrors(data),
     TitleErrors(data), UrlErrors(UrlFields, data), IdentifierErrors(data), ClaimsErrors(data)]
  }

  /** The lists of `ps` one after the other. */
  function Concat(ps: seq<seq<ValidationError>>): seq<ValidationError> {
    if ps == [] then [] else Concat(ps[..|ps| - 1]) + ps[|ps| - 1]
  }

  /** When list i holds only errors of stage i, an error occurs in the
      concatenation exactly when it occurs in the list of its own stage ... */
  lemma {:induction false} ConcatByStage(ps: seq<seq<ValidationError>>, stage: ValidationError -> nat)
    requires forall i, e :: 0 <= i < |ps| && e in ps[i] ==> stage(e) == i
    ensures forall e :: e in Concat(ps) <==> stage(e) < |ps| && e in ps[stage(e)]
  {
    if ps != [] {
      var init, last := ps[..|ps| - 1], ps[|ps| - 1];
      ConcatByStage(init, stage);
      assert Concat(ps) == Concat(init) + last;
    }
  }

  /** ... and as often as it occurs there. */
  lemma {:induction false} ConcatCountByStage(ps: seq<seq<ValidationError>>, stage: ValidationError -> nat, e: ValidationError)
    requires forall i, x :: 0 <= i < |ps| && x in ps[i] ==> stage(x) == i
    ensures multiset(Concat(ps))[e] == if stage(e) < |ps| then multiset(ps[stage(e)])[e] else 0
  {
    if ps != [] {
      var init, last := ps[..|ps| - 1], ps[|ps| - 1];
      ConcatCountByStage(init, stage, e);
      assert Concat(ps) == Concat(init) + last;
      if stage(e) != |ps| - 1 {
        assert e !in last;
      } else {
        ConcatByStage(init, stage);
        assert e !in Concat(init);
      }
    }
  }

  /** Eight lists, the first empty, concatenated in order. */
  lemma ConcatEight(b: seq<ValidationError>, c: seq<ValidationError>, d: seq<ValidationError>,
                    e: seq<ValidationError>, f: seq<ValidationError>, g: seq<ValidationError>, h: seq<ValidationError>)
    ensures Concat([[], b, c, d, e, f, g, h]) == b + (c + d + e + f + g + h)
  {
    var ps := [[], b, c, d, e, f, g, h];
    assert ps[..1][..0] == [];
    assert Concat(ps[..1]) == [];
    assert ps[..2][..1] == ps[..1];
    assert Concat(ps[..2]) == b;
    assert ps[..3][..2] == ps[..2];
    assert Concat(ps[..3]) == b + c;
    assert ps[..4][..3] == ps[..3];
    assert Concat(ps[..4]) == b + c + d;
    assert ps[..5][..4] == ps[..4];
    assert Concat(ps[..5]) == b + c + d + e;
    assert ps[..6][..5] == ps[..5];
    assert Concat(ps[..6]) == b + c + d + e + f;
    assert ps[..7][..6] == ps[..6];
    assert Concat(ps[..7]) == b + c + d + e + f + g;
    assert ps[..8] == ps;
    assert Concat(ps) == b + c + d + e + f + g + h;
  }

  /** A parsed mapping's errors are its stages' errors in stage order. */
  lemma DocumentStages(required: seq<string>, data: map<string, Value>)
    ensures DocumentErrors(required, data) == Concat(Stages(required, data))
  {
    ConcatEight(RequiredFieldErrors(required, data), UsernameErrors(data), ClaimTypeErrors(data),
      TitleErrors(data), UrlErrors(UrlFields, data), IdentifierErrors(data), ClaimsErrors(data));
  }

  lemma UsernameStaged(data: map<string, Value>)
    ensures forall e :: e in UsernameErrors(data) ==> Stage(e) == 2
  {
  }

  lemma ClaimTypeStaged(data: map<string, Value>)
    ensures forall e :: e in ClaimTypeErrors(data) ==> Stage(e) == 3
  {
    ClaimTypeRule(data);
  }

  lemma ClaimsStaged(data: map<string, Value>)
    ensures forall e :: e in ClaimsErrors(data) ==> Stage(e) == 7
  {
    if "claims" in data && data["claims"].List? && data["claims"].items != [] {
      forall j: nat, v: Value, e | e in ClaimErrors(j, v) ensures Stage(e) == 7 {
        ClaimErrorsIndexed(j, v);
      }
      NumberedAll(ClaimErrors, e => Stage(e) == 7, data["claims"].items, |data["claims"].items|);
    }
  }

  lemma RequiredStaged(required: seq<string>, data: map<string, Value>)
    ensures forall e :: e in RequiredFieldErrors(required, data) ==> Stage(e) == 1
  {
    RequiredFieldFacts(required, data);
  }

  lemma UrlStaged(data: map<string, Value>)
    ensures forall e :: e in UrlErrors(UrlFields, data) ==> Stage(e) == 5
  {
    UrlFacts(UrlFields, data);
  }

  /** Each check reports only errors of its own stage. */
  lemma StagesStaged(required: seq<string>, data: map<string, Value>)
    ensures forall i, e :: 0 <= i < |Stages(required, data)| && e in Stages(required, data)[i] ==> Stage(e) == i
  {
    var ps := Stages(required, data);
    forall i, e | 0 <= i < |ps| && e in ps[i] ensures Stage(e) == i {
      if i == 1 {
        RequiredStaged(required, data);
      } else if i == 2 {
        UsernameStaged(data);
      } else if i == 3 {
        ClaimTypeStaged(data);
      } else if i == 5 {
        UrlStaged(data);
      } else if i == 7 {
        ClaimsStaged(data);
      }
    }
  }

  /** Every error is reported by the check of its stage alone: it occurs in the
      document's errors exactly when that check reports it ... */
  lemma StageLocality(required: seq<string>, data: map<string, Value>, e: ValidationError)
    ensures e in DocumentErrors(required, data) <==> Stage(e) != 0 && e in Stages(required, data)[Stage(e)]
  {
    DocumentStages(required, data);
    StagesStaged(required, data);
    ConcatByStage(Stages(required, data), Stage);
  }

  /** ... and as often as that check reports it. */
  lemma StageCount(required: seq<string>, data: map<string, Value>, e: ValidationError)
    ensures multiset(DocumentErrors(required, data))[e] == multiset(Stages(required, data)[Stage(e)])[e]
  {
    DocumentStages(required, data);
    StagesStaged(required, data);
    ConcatCountByStage(Stages(required, data), Stage, e);
  }

  /** The URL loop, over distinct fields, reports a field at most once. */
  lemma {:induction false} UrlCount(fields: seq<string>, data: map<string, Value>, f: string)
    requires forall i, j :: 0 <= i < j < |fields| ==> fields[i] != fields[j]
    ensures multiset(UrlErrors(fields, data))[UrlInvalid(f)] == if f in fields && !UrlOk(data, f) then 1 else 0
  {
    if fields != [] {
      var init, last := fields[..|fields| - 1], fields[|fields| - 1];
      UrlCount(init, data, f);
      assert fields == init + [last];
      assert f in fields <==> f in init || f == last;
      assert last !in init;
    }
  }

  /** A document passes exactly when it is well-formed. */
  lemma DocumentValidity(required: seq<string>, data: map<string, Value>)
    ensures DocumentErrors(required, data) == [] <==> WellFormed(required, data)
  {
    RequiredFieldFacts(required, data);
    UsernameRule(data);
    ClaimTypeRule(data);
    UrlFacts(UrlFields, data);
    ClaimsRule(data);
  }

  /** A missing file, a wrong extension, a parse failure or a parsed value that
      is not a mapping each give exactly one error and no field is checked. */
  lemma EarlyExits(required: seq<string>, path: string, file: FileState)
    ensures file.Missing? ==> FileErrors(required, path, file) == [FileNotFound(path)]
    ensures file.Present? && Extension(path) !in AllowedExtensions ==>
      FileErrors(required, path, file) == [InvalidExtension(Extension(path))]
    ensures file.Present? && Extension(path) in AllowedExtensions && file.load.SyntaxError? ==>
      FileErrors(required, path, file) ==
        [if Extension(path) == ".json" then InvalidJson(file.load.detail) else InvalidYaml(file.load.detail)]
    ensures file.Present? && Extension(path) in AllowedExtensions && file.load.ReadError? ==>
      FileErrors(required, path, file) == [ReadFailure(file.load.detail)]
    ensures file.Present? && Extension(path) in AllowedExtensions && file.load.Parsed? && !file.load.value.Obj? ==>
      FileErrors(required, path, file) == [NotAnObject]
  {
  }

  /** A file passes exactly when it exists, has a .json/.yaml/.yml extension
      in any letter case, parses to a mapping, and that mapping is well-formed. */
  lemma FileValidity(required: seq<string>, path: string, file: FileState)
    ensures FileErrors(required, path, file) == [] <==>
      && file.Present? && Extension(path) in AllowedExtensions
      && file.load.Parsed? && file.load.value.Obj?
      && WellFormed(required, file.load.value.fields)
  {
    if file.Present? && file.load.Parsed? && file.load.value.Obj? {
      DocumentValidity(required, file.load.value.fields);
    }
  }

  /** The keys the rules read besides the required ones. */
  const ReadKeys: seq<string> :=
    ["username", "claim_type", "code_url", "paper_title", "paper_pdf", "data_url", "identifier", "claims"]

  lemma {:induction false} RequiredFieldsIgnore(fields: seq<string>, data: map<string, Value>, key: string)
    requires key !in fields
    ensures RequiredFieldErrors(fields, data - {key}) == RequiredFieldErrors(fields, data)
  {
    if fields != [] {
      RequiredFieldsIgnore(fields[..|fields| - 1], data, key);
    }
  }

  lemma {:induction false} UrlFieldsIgnore(fields: seq<string>, data: map<string, Value>, key: string)
    requires key !in fields
    ensures UrlErrors(fields, data - {key}) == UrlErrors(fields, data)
  {
    if fields != [] {
      UrlFieldsIgnore(fields[..|fields| - 1], data, key);
    }
  }

  /** A check that reads only `k` gives the same errors on two mappings that
      agree on `k`. */
  predicate AgreeOn(a: map<string, Value>, b: map<string, Value>, k: string) {
    (k in a <==> k in b) && (k in a ==> a[k] == b[k])
  }

  lemma UsernameReads(a: map<string, Value>, b: map<string, Value>)
    requires AgreeOn(a, b, "username")
    ensures UsernameErrors(a) == UsernameErrors(b)
  {
  }

  lemma ClaimTypeReads(a: map<string, Value>, b: map<string, Value>)
    requires AgreeOn(a, b, "claim_type") && AgreeOn(a, b, "code_url")
    ensures ClaimTypeErrors(a) == ClaimTypeErrors(b)
  {
  }

  lemma ClaimsReads(a: map<string, Value>, b: map<string, Value>)
    requires AgreeOn(a, b, "claims")
    ensures ClaimsErrors(a) == ClaimsErrors(b)
  {
  }

  /** Removing a key no check reads leaves every check's errors as they were. */
  lemma StagesIgnore(required: seq<string>, data: map<string, Value>, key: string)
    requires key !in required && key !in ReadKeys
    ensures Stages(required, data - {key}) == Stages(required, data)
  {
    var d := data - {key};
    RequiredFieldsIgnore(required, data, key);
    UrlFieldsIgnore(UrlFields, data, key);
    UsernameReads(d, data);
    ClaimTypeReads(d, data);
    ClaimsReads(d, data);
    assert TitleErrors(d) == TitleErrors(data) by { assert AgreeOn(d, data, "paper_title"); }
    assert IdentifierErrors(d) == IdentifierErrors(data) by { assert AgreeOn(d, data, "identifier"); }
  }

  /** Any other key, such as `non_reproducible_claims`, is never looked at:
      removing it changes nothing. */
  lemma UnreadKeysIgnored(required: seq<string>, data: map<string, Value>, key: string)
    requires key !in required && key !in ReadKeys
    ensures DocumentErrors(required, data - {key}) == DocumentErrors(required, data)
  {
    StagesIgnore(required, data, key);
    DocumentStages(required, data);
    DocumentStages(required, data - {key});
  }

  // ---------------------------------------------------------------------
  // Messages
  // ---------------------------------------------------------------------

  /** t occurs in p + t + q. */
  lemma OccursAfter(p: string, t: string, q: string)
    ensures Contains(p + t + q, t)
  {
    assert (p + t + q)[|p|..|p| + |t|] == t;
    assert OccursAt(p + t + q, t, |p|);
  }

  /** An occurrence survives putting text after. */
  lemma ContainsExtend(s: string, q: string, t: string)
    requires Contains(s, t)
    ensures Contains(s + q, t)
  {
    var i :| 0 <= i <= |s| - |t| && OccursAt(s, t, i);
    assert (s + q)[i..i + |t|] == s[i..i + |t|];
    assert OccursAt(s + q, t, i);
  }

  /** t occurs at the start of t + q. */
  lemma OccursFirst(t: string, q: string)
    ensures Contains(t + q, t)
  {
    assert (t + q)[0..|t|] == t;
    assert OccursAt(t + q, t, 0);
  }

  /** The message about a missing field names that field. */
  lemma FieldMissingMessage(f: string)
    ensures Contains(Message(FieldMissing(f)), f)
  {
    OccursAfter("Required field missing: '", f, "'");
  }

  /** The message about an empty field names that field. */
  lemma FieldEmptyMessage(f: string)
    ensures Contains(Message(FieldEmpty(f)), f)
  {
    OccursAfter("Required field '", f, "' cannot be empty");
  }

  /** The message about a bad URL names its field. */
  lemma UrlMessage(f: string)
    ensures Contains(Message(UrlInvalid(f)), f)
  {
    OccursFirst(f, " must be a valid URL starting with http:// or https://");
  }

  /** The missing code URL message names `code_url`. */
  lemma CodeUrlMessage()
    ensures Contains(Message(CodeUrlRequired), "code_url")
  {
    OccursFirst("code_url", " is required (or specify claim_type as 'pip_libraries' if using standard libraries)");
  }

  /** The custom-code message names `code_url`. */
  lemma CustomCodeMessage()
    ensures Contains(Message(CodeUrlRequiredForCustomCode), "code_url")
  {
    OccursFirst("code_url", " is required for custom_code claim type");
  }

  /** The claim type message names `claim_type`. */
  lemma ClaimTypeMessage()
    ensures Contains(Message(ClaimTypeInvalid), "claim_type")
  {
    OccursFirst("claim_type", " must be either 'custom_code' or 'pip_libraries'");
  }

  /** The message about a missing instruction names `instruction`. */
  lemma InstructionMissingMessage(i: nat)
    ensures Contains(Message(InstructionMissing(i)), "instruction")
  {
    var p, q := "Claim " + NatToString(i) + " must have an '", "' field";
    assert Message(InstructionMissing(i)) == p + "instruction" + q;
    OccursAfter(p, "instruction", q);
  }

  /** The message about an instruction that is not a list names `instruction`. */
  lemma InstructionNotListMessage(i: nat)
    ensures Contains(Message(InstructionNotList(i)), "instruction")
  {
    var p, q := "Claim " + NatToString(i) + " '", "' field must be a list of strings";
    assert Message(InstructionNotList(i)) == p + "instruction" + q;
    OccursAfter(p, "instruction", q);
  }

  /** The message about an empty instruction names `instruction`. */
  lemma InstructionEmptyMessage(i: nat)
    ensures Contains(Message(InstructionEmpty(i)), "instruction")
  {
    var p, q := "Claim " + NatToString(i) + " '", "' list cannot be empty";
    assert Message(InstructionEmpty(i)) == p + "instruction" + q;
    OccursAfter(p, "instruction", q);
  }

  /** The message about a bad step names `instruction`. */
  lemma StepMessage(i: nat, j: nat)
    ensures Contains(Message(StepInvalid(i, j)), "instruction")
  {
    var n := "Claim " + NatToString(i);
    OccursAfter(n + " ", "instruction", " step ");
    var s := n + " " + "instruction" + " step ";
    ContainsExtend(s, NatToString(j), "instruction");
    ContainsExtend(s + NatToString(j), " must be a non-empty string", "instruction");
  }

  /** When p lowers to t, the lowered p + q contains t. */
  lemma LowerPrefix(p: string, q: string, t: string)
    requires |p| == |t| && forall i :: 0 <= i < |p| ==> LowerChar(p[i]) == t[i]
    ensures Contains(Lower(p + q), t)
  {
    assert Lower(p + q)[..|t|] == t by {
      forall i | 0 <= i < |t| ensures Lower(p + q)[i] == t[i] {
        assert (p + q)[i] == p[i];
      }
    }
    assert OccursAt(Lower(p + q), t, 0);
  }

  /** The username messages mention "username" once lowered. */
  lemma UsernameMessages()
    ensures Contains(Lower(Message(UsernameEmpty)), "username")
    ensures Contains(Lower(Message(UsernameCharacters)), "username")
    ensures Contains(Lower(Message(UsernameTooLong)), "username")
  {
    LowerPrefix("Username", " cannot be empty", "username");
    LowerPrefix("Username", " can only contain letters, numbers, hyphens, and underscores", "username");
    LowerPrefix("Username", " is too long (max 39 characters)", "username");
  }

  /** The empty-claims message mentions "at least one claim" once lowered. */
  lemma ClaimsEmptyMessage()
    ensures Contains(Lower(Message(ClaimsEmpty)), "at least one claim")
  {
    LowerPrefix("At least one claim", " is required", "at least one claim");
  }
}
