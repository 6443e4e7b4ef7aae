/**
  `SubmissionValidator`: the object that collects errors while it checks a
  file. Each method appends to `errors` in the order the checks run and is
  proved to leave exactly the list the rules of `SubmissionRules` describe.
 */
module SubmissionValidation {
  import opened Wrappers
  import opened Text
  import opened Values
  import opened SubmissionRules

  class SubmissionValidator {
    var requiredFields: seq<string>
    var errors: seq<ValidationError>
    /** Nothing ever appends a warning: the list stays empty. */
    var warnings: seq<string>

    /** `required_fields or [...]`: no list, or an empty one, selects the defaults. */
    constructor (fields: Option<seq<string>>)
      ensures requiredFields == if fields.Some? && fields.value != [] then fields.value else DefaultRequiredFields
      ensures errors == [] && warnings == []
    {
      requiredFields := if fields.Some? && fields.value != [] then fields.value else DefaultRequiredFields;
      errors := [];
      warnings := [];
    }

    /** `validate_file`: resets both lists, runs the checks on what is found at
        `path`, and reports whether no error was found; by
        `SubmissionFacts.FileValidity`, that is exactly when the file holds a
        well-formed submission. */
    method ValidateFile(path: string, file: FileState) returns (isValid: bool, errs: seq<ValidationError>, warns: seq<string>)
      modifies this`errors, this`warnings
      ensures errors == FileErrors(requiredFields, path, file) && warnings == []
      ensures errs == errors && warns == warnings
      ensures isValid <==> errs == []
    {
      errors := [];
      warnings := [];
      var data := CheckFile(path, file);
      if data.None? {
        return false, errors, warnings;
      }
      CheckDocument(data.value);
      return |errors| == 0, errors, warnings;
    }

    /** The checks before any field is looked at: the file exists, has an
        allowed extension, parses, and parses to a mapping. On the first that
        fails its error is appended and nothing is returned. */
    method CheckFile(path: string, file: FileState) returns (data: Option<map<string, Value>>)
      modifies this`errors
      ensures data.None? ==> errors == old(errors) + FileErrors(requiredFields, path, file)
      ensures data.None? ==> FileErrors(requiredFields, path, file) != []
      ensures data.Some? ==> errors == old(errors) && FileErrors(requiredFields, path, file) == DocumentErrors(requiredFields, data.value)
    {
      if file.Missing? {
        errors := errors + [FileNotFound(path)];
        return None;
      }
      var ext := Extension(path);
      if ext !in AllowedExtensions {
        errors := errors + [InvalidExtension(ext)];
        return None;
      }
      var load := file.load;
      if load.SyntaxError? {
        if ext == ".json" {
          errors := errors + [InvalidJson(load.detail)];
        } else {
          errors := errors + [InvalidYaml(load.detail)];
        }
        return None;
      } else if load.ReadError? {
        errors := errors + [ReadFailure(load.detail)];
        return None;
      }
      var value := load.value;
      if !value.Obj? {
        errors := errors + [NotAnObject];
        return None;
      }
      return Some(value.fields);
    }

    /** The checks of a document that parsed to a mapping: the required
        fields, then `_validate_data_structure`. */
    method CheckDocument(data: map<string, Value>)
      modifies this`errors
      ensures errors == old(errors) + DocumentErrors(requiredFields, data)
    {
      ghost var start := errors;
      CheckRequiredFields(data);
      ValidateDataStructure(data);
      AppendAssoc(start, RequiredFieldErrors(requiredFields, data), StructureErrors(data));
    }

    /** The loop over the required fields. */
    method CheckRequiredFields(data: map<string, Value>)
      modifies this`errors
      ensures errors == old(errors) + RequiredFieldErrors(requiredFields, data)
    {
      for i := 0 to |requiredFields|
        invariant errors == old(errors) + RequiredFieldErrors(requiredFields[..i], data)
      {
        var field := requiredFields[i];
        assert requiredFields[..i + 1][..i] == requiredFields[..i];
        assert RequiredFieldErrors(requiredFields[..i + 1], data)
          == RequiredFieldErrors(requiredFields[..i], data) + RequiredFieldError(field, data);
        if field !in data {
          errors := errors + [FieldMissing(field)];
        } else if data[field].Null? || (data[field].Str? && Strip(data[field].s) == "") {
          errors := errors + [FieldEmpty(field)];
        }
      }
      assert requiredFields[..|requiredFields|] == requiredFields;
    }

    /** `_validate_data_structure`: the checks after the required fields, in order. */
    method ValidateDataStructure(data: map<string, Value>)
      modifies this`errors
      ensures errors == old(errors) + StructureErrors(data)
    {
      ghost var start := errors;
      CheckUsername(data);
      CheckClaimType(data);
      CheckTitle(data);
      CheckUrls(data);
      CheckIdentifier(data);
      CheckClaims(data);
      AppendSix(start, UsernameErrors(data), ClaimTypeErrors(data), TitleErrors(data),
        UrlErrors(UrlFields, data), IdentifierErrors(data), ClaimsErrors(data));
    }

    method CheckTitle(data: map<string, Value>)
      modifies this`errors
      ensures errors == old(errors) + TitleErrors(data)
    {
      if "paper_title" in data {
        if !data["paper_title"].Str? || Strip(data["paper_title"].s) == "" {
          errors := errors + [PaperTitleInvalid];
        }
      }
    }

    method CheckIdentifier(data: map<string, Value>)
      modifies this`errors
      ensures errors == old(errors) + IdentifierErrors(data)
    {
      if "identifier" in data {
        TextRendering(data["identifier"]);
        var identifier := Strip(ToStr(data["identifier"]));
        if identifier == "" {
          errors := errors + [IdentifierEmpty];
        }
      }
    }

    method CheckUsername(data: map<string, Value>)
      modifies this`errors
      ensures errors == old(errors) + UsernameErrors(data)
    {
      if "username" in data {
        TextRendering(data["username"]);
        var username := Strip(ToStr(data["username"]));
        if username == "" {
          errors := errors + [UsernameEmpty];
        } else if !IsAlnumString(Without(Without(username, '-'), '_')) {
          errors := errors + [UsernameCharacters];
        } else if |username| > MaxUsernameLength {
          errors := errors + [UsernameTooLong];
        }
      }
    }

    method CheckClaimType(data: map<string, Value>)
      modifies this`errors
      ensures errors == old(errors) + ClaimTypeErrors(data)
    {
      if "claim_type" in data {
        TextRendering(data["claim_type"]);
        var claimType := Strip(ToStr(data["claim_type"]));
        if claimType !in ClaimTypes {
          errors := errors + [ClaimTypeInvalid];
        }
        if claimType == "custom_code" && !HasTruthy(data, "code_url") {
          errors := errors + [CodeUrlRequiredForCustomCode];
        }
      } else if !HasTruthy(data, "code_url") {
        errors := errors + [CodeUrlRequired];
      }
    }

    /** The loop over `paper_pdf`, `code_url` and `data_url`. */
    method CheckUrls(data: map<string, Value>)
      modifies this`errors
      ensures errors == old(errors) + UrlErrors(UrlFields, data)
    {
      for i := 0 to |UrlFields|
        invariant errors == old(errors) + UrlErrors(UrlFields[..i], data)
      {
        var field := UrlFields[i];
        assert UrlFields[..i + 1][..i] == UrlFields[..i];
        CheckUrl(field, data);
        AppendAssoc(old(errors), UrlErrors(UrlFields[..i], data), UrlError(field, data));
      }
      assert UrlFields[..|UrlFields|] == UrlFields;
    }

    method CheckUrl(field: string, data: map<string, Value>)
      modifies this`errors
      ensures errors == old(errors) + UrlError(field, data)
    {
      if field in data && Truthy(data[field]) {
        TextRendering(data[field]);
        var url := Strip(ToStr(data[field]));
        if !(StartsWith(url, "http://") || StartsWith(url, "https://")) {
          errors := errors + [UrlInvalid(field)];
        }
      }
    }

    /** The claims check and its loop over the claims, numbered from 1. */
    method CheckClaims(data: map<string, Value>)
      modifies this`errors
      ensures errors == old(errors) + ClaimsErrors(data)
    {
      if "claims" in data {
        if !data["claims"].List? {
          errors := errors + [ClaimsNotList];
        } else if data["claims"].items == [] {
          errors := errors + [ClaimsEmpty];
        } else {
          var claims := data["claims"].items;
          for i := 0 to |claims|
            invariant errors == old(errors) + Numbered(ClaimErrors, claims, i)
          {
            CheckClaim(i + 1, claims[i]);
            AppendAssoc(old(errors), Numbered(ClaimErrors, claims, i), ClaimErrors(i + 1, claims[i]));
          }
        }
      }
    }

    /** The checks of claim number k. */
    method CheckClaim(k: nat, claim: Value)
      modifies this`errors
      ensures errors == old(errors) + ClaimErrors(k, claim)
    {
      if !claim.Obj? {
        errors := errors + [ClaimNotObject(k)];
      } else {
        CheckClaimText(k, claim.fields);
        CheckInstruction(k, claim.fields);
        AppendAssoc(old(errors), ClaimTextErrors(k, claim.fields), InstructionErrors(k, claim.fields));
      }
    }

    method CheckClaimText(k: nat, claim: map<string, Value>)
      modifies this`errors
      ensures errors == old(errors) + ClaimTextErrors(k, claim)
    {
      if "claim" in claim {
        TextRendering(claim["claim"]);
      }
      if "claim" !in claim || Strip(ToStr(claim["claim"])) == "" {
        errors := errors + [ClaimTextMissing(k)];
      }
    }

    /** The instruction-shape checks of claim number k and its loop over the
        steps, numbered from 1. */
    method CheckInstruction(k: nat, claim: map<string, Value>)
      modifies this`errors
      ensures errors == old(errors) + InstructionErrors(k, claim)
    {
      if "instruction" !in claim {
        errors := errors + [InstructionMissing(k)];
      } else if !claim["instruction"].List? {
        errors := errors + [InstructionNotList(k)];
      } else if claim["instruction"].items == [] {
        errors := errors + [InstructionEmpty(k)];
      } else {
        var steps := claim["instruction"].items;
        for j := 0 to |steps|
          invariant errors == old(errors) + Numbered(StepCheck(k), steps, j)
        {
          var step := steps[j];
          AppendAssoc(old(errors), Numbered(StepCheck(k), steps, j), StepError(k, j + 1, step));
          if !step.Str? || Strip(step.s) == "" {
            errors := errors + [StepInvalid(k, j + 1)];
          }
        }
      }
    }
  }

  lemma AppendAssoc(x: seq<ValidationError>, a: seq<ValidationError>, b: seq<ValidationError>)
    ensures x + a + b == x + (a + b)
  {
  }

  lemma AppendSix(x: seq<ValidationError>, a: seq<ValidationError>, b: seq<ValidationError>, c: seq<ValidationError>,
                  d: seq<ValidationError>, e: seq<ValidationError>, f: seq<ValidationError>)
    ensures x + a + b + c + d + e + f == x + (a + b + c + d + e + f)
  {
  }
}
