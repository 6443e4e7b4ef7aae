/**
  The decisions `organize_files` makes for one file, as pure functions: which
  names are skipped or ignored, how a user name becomes a directory name, and
  which name a moved file gets when its own name is taken.
 */
module OrganizerRules {
  import opened Wrappers
  import opened Text
  import opened Values
  import opened Paths

  /** The example files shipped with the repository, which are never moved. */
  const PreservedExamples: seq<string> := ["example_submission_in.json", "we_also_accept_submission_in.yaml"]
  /** Any name whose lower-cased stem contains this is an example too. */
  const ExampleMarker: string := "example_submission"
  const DataExtensions: seq<string> := [".json", ".yaml", ".yml"]

  /** The name of an entry of a directory: a single path component. */
  type Component = c: string | IsPart(c) witness "a"

  /** A file on disk: the directory it is in and its name. */
  datatype Entry = Entry(dir: Path, name: Component)

  // ---------------------------------------------------------------------
  // Which files are looked at
  // ---------------------------------------------------------------------

  /** `.gitkeep`, the two preserved examples, and anything named like an example. */
  predicate IsSkipped(name: string) {
    name == ".gitkeep" || name in PreservedExamples || Contains(Lower(Stem(name)), ExampleMarker)
  }

  /** The lower-cased extension is .json, .yaml or .yml. */
  predicate IsDataFile(name: string) {
    Lower(Suffix(name)) in DataExtensions
  }

  /** The files that end up counted, either as processed or as an error. */
  predicate IsEligible(name: string) {
    !IsSkipped(name) && IsDataFile(name)
  }

  /** How many of the entries are eligible. */
  function CountEligible(entries: seq<Entry>): (n: nat)
    ensures n <= |entries|
  {
    if entries == [] then 0
    else CountEligible(entries[..|entries| - 1]) + (if IsEligible(entries[|entries| - 1].name) then 1 else 0)
  }

  // ---------------------------------------------------------------------
  // Sanitizing the user name
  // ---------------------------------------------------------------------

  /** `c.isalnum() or c in '-_'`, with the ASCII letters and digits. */
  predicate IsSafeChar(c: char) {
    IsAlnum(c) || c == '-' || c == '_'
  }

  predicate AllSafe(s: string) {
    forall i :: 0 <= i < |s| ==> IsSafeChar(s[i])
  }

  /** `"".join(c for c in username if c.isalnum() or c in '-_')`. */
  function Sanitize(s: string): string {
    if s == [] then []
    else if IsSafeChar(s[0]) then [s[0]] + Sanitize(s[1..])
    else Sanitize(s[1..])
  }

  /** t is s with some characters deleted, the rest in their order. */
  predicate IsSubsequence(t: string, s: string) {
    if t == [] then true
    else if s == [] then false
    else if t[0] == s[0] then IsSubsequence(t[1..], s[1..])
    else IsSubsequence(t, s[1..])
  }

  /** Every character of the sanitized name is safe: no '/', no '.', no space. */
  lemma {:induction false} SanitizeSafe(s: string)
    ensures AllSafe(Sanitize(s))
  {
    if s != [] {
      SanitizeSafe(s[1..]);
    }
  }

  /** Sanitizing keeps the kept characters in their original order. */
  lemma {:induction false} SanitizeSubsequence(s: string)
    ensures IsSubsequence(Sanitize(s), s)
  {
    if s != [] {
      SanitizeSubsequence(s[1..]);
      var t := Sanitize(s);
      if !IsSafeChar(s[0]) && t != [] {
        SanitizeSafe(s[1..]);
        assert t[0] != s[0];
      }
    }
  }

  /** Exactly the safe characters are kept, each as often as it occurs. */
  lemma {:induction false} SanitizeCounts(s: string, c: char)
    ensures multiset(Sanitize(s))[c] == if IsSafeChar(c) then multiset(s)[c] else 0
  {
    if s != [] {
      SanitizeCounts(s[1..], c);
      assert s == [s[0]] + s[1..];
    }
  }

  /** A name that is already safe is left as it is, and only such a name is. */
  lemma {:induction false} SanitizeIdentity(s: string)
    ensures Sanitize(s) == s <==> AllSafe(s)
  {
    if s != [] {
      SanitizeIdentity(s[1..]);
      if Sanitize(s) == s {
        SanitizeSafe(s);
      }
      if !IsSafeChar(s[0]) {
        assert |Sanitize(s[1..])| <= |s[1..]| by { SanitizeShorter(s[1..]); }
      }
    }
  }

  lemma {:induction false} SanitizeShorter(s: string)
    ensures |Sanitize(s)| <= |s|
  {
    if s != [] {
      SanitizeShorter(s[1..]);
    }
  }

  /** Sanitizing twice is sanitizing once. */
  lemma SanitizeIdempotent(s: string)
    ensures Sanitize(Sanitize(s)) == Sanitize(s)
  {
    SanitizeSafe(s);
    SanitizeIdentity(Sanitize(s));
  }

  // ---------------------------------------------------------------------
  // The per-file decision
  // ---------------------------------------------------------------------

  /** The documents `organize_files` reads without raising: a falsy one, or a
      mapping whose `username`, if any, is a string. (`.get` on a truthy
      non-mapping and `.strip()` on a non-string raise.) */
  predicate CrashFree(v: Value) {
    !Truthy(v) || (v.Obj? && ("username" in v.fields ==> v.fields["username"].Str?))
  }

  /** `data.get('username', '').strip()`: blank exactly when the field is
      absent or holds only white space, and never padded. */
  function UsernameOf(v: Value): (r: string)
    requires v.Obj? && ("username" in v.fields ==> v.fields["username"].Str?)
    ensures r == [] <==> "username" !in v.fields || IsBlank(v.fields["username"].s)
    ensures r != [] ==> !IsSpace(r[0]) && !IsSpace(r[|r| - 1])
  {
    if "username" in v.fields then Strip(v.fields["username"].s) else ""
  }

  /** What happens to one file before any moving. */
  datatype Decision =
    | Skip                 // never processed, not counted
    | NotData              // wrong extension: ignored, not counted
    | LoadFailed           // `if not data`: an error
    | NoUsername           // blank or absent username: an error
    | BadUsername          // nothing left after sanitizing: an error
    | Crash                // `.get` or `.strip()` raises out of the loop
    | MoveTo(user: string) // move into the directory of this sanitized name

  /** The decision for a file of this name whose loading gave `data`. */
  function Decide(name: string, data: Option<Value>): (d: Decision)
    ensures d.MoveTo? ==> d.user != [] && AllSafe(d.user)
  {
    if IsSkipped(name) then Skip
    else if !IsDataFile(name) then NotData
    else if data.None? || !Truthy(data.value) then LoadFailed
    else if !CrashFree(data.value) then Crash
    else
      var username := UsernameOf(data.value);
      if username == "" then NoUsername
      else
        var safe := Sanitize(username);
        SanitizeSafe(username);
        if safe == "" then BadUsername else MoveTo(safe)
  }

  /** A file is left out of the counts exactly when it is skipped or has the
      wrong extension; a loaded document that is not a mapping, or whose user
      name is not a string, makes the script raise; otherwise the file is an
      error unless it loads as a mapping with a non-blank user name that keeps
      a safe character, and then it goes to the directory of that name,
      sanitized. Beside `Decide`'s if-chain, these say that each decision
      holds exactly under its own condition, which excludes the others, and tie
      the uncounted decisions to `IsEligible`. */
  lemma DecideFacts(name: string, data: Option<Value>)
    ensures (Decide(name, data).Skip? || Decide(name, data).NotData?) <==> !IsEligible(name)
    ensures Decide(name, data).Skip? <==> IsSkipped(name)
    ensures Decide(name, data) == LoadFailed <==> IsEligible(name) && (data.None? || !Truthy(data.value))
    ensures Decide(name, data) == Crash <==>
      IsEligible(name) && data.Some? && Truthy(data.value) && !CrashFree(data.value)
    ensures Decide(name, data) == NoUsername <==>
      && IsEligible(name) && data.Some? && Truthy(data.value) && CrashFree(data.value)
      && ("username" in data.value.fields ==> IsBlank(data.value.fields["username"].s))
    ensures Decide(name, data).MoveTo? <==>
      && IsEligible(name) && data.Some? && Truthy(data.value) && CrashFree(data.value)
      && Sanitize(UsernameOf(data.value)) != []
    ensures Decide(name, data).MoveTo? ==>
      && data.Some? && data.value.Obj?
      && Decide(name, data).user == Sanitize(UsernameOf(data.value))
  {
  }

  /** A sanitized user name is a single path component. */
  lemma SafeIsPart(user: string)
    requires user != [] && AllSafe(user)
    ensures IsPart(user)
  {
    assert IsSafeChar(user[0]);
  }

  /** The user directory `target_path / safe_username`. */
  function UserDir(target: Path, user: string): Path {
    Child(target, user)
  }

  /** dir is a directory directly below `target` whose name is a sanitized
      user name. */
  predicate InUserDir(target: Path, dir: Path) {
    && dir.anchor == target.anchor
    && |dir.parts| == |target.parts| + 1 && dir.parts[..|target.parts|] == target.parts
    && AllSafe(dir.parts[|target.parts|])
  }

  /** Every user directory lies directly below the target, different users
      get different directories, and the directory is well formed. */
  lemma UserDirFacts(target: Path, user: string, other: string)
    requires user != [] && AllSafe(user)
    ensures InUserDir(target, UserDir(target, user))
    ensures UserDir(target, user) == UserDir(target, other) ==> user == other
    ensures WellFormed(target) ==> WellFormed(UserDir(target, user))
  {
    var parts := UserDir(target, user).parts;
    assert parts[..|target.parts|] == target.parts && parts[|target.parts|] == user;
    if UserDir(target, user) == UserDir(target, other) {
      assert UserDir(target, other).parts[|target.parts|] == other;
    }
    SafeIsPart(user);
  }

  /** `str(Path(target) / user)`: the user directory as its string. */
  lemma UserDirString(target: string, user: string)
    requires user != [] && AllSafe(user)
    ensures PathStr(UserDir(ParsePath(target), user)) == Join(target, user)
  {
    SafeIsPart(user);
    ChildJoin(target, user);
  }

  /** The documented target `data/organized/` gives the same user directories
      as `data/organized`: a trailing slash on the target changes nothing. */
  lemma UserDirTrailingSlash(target: string, user: string)
    requires |target| >= 3 || (target != [] && target[0] != '/')
    ensures UserDir(ParsePath(target + "/"), user) == UserDir(ParsePath(target), user)
  {
    AnchorTrailing(target);
    PartsTrailingSlash(target);
  }

  /** Below a target in normal form, such as `data/organized`, the user
      directory is the target, one slash and the user name. */
  lemma UserDirNormal(target: string, user: string)
    requires Normalize(target) == target && Parts(target) != []
    requires user != [] && AllSafe(user)
    ensures PathStr(UserDir(ParsePath(target), user)) == target + "/" + user
  {
    SafeIsPart(user);
    UserDirString(target, user);
    JoinNormal(target, user);
  }

  /** With an empty target the user directory is the bare user name, relative
      to the current directory. */
  lemma UserDirEmptyTarget(user: string)
    requires user != [] && AllSafe(user)
    ensures PathStr(UserDir(ParsePath(""), user)) == user
  {
    UserDirString("", user);
    JoinEmpty(user);
  }

  // ---------------------------------------------------------------------
  // Collision naming
  // ---------------------------------------------------------------------

  /** The k-th name tried for a file: its own name first, then `stem_k + suffix`. */
  function Candidate(name: string, k: nat): string {
    if k == 0 then name else Stem(name) + "_" + NatToString(k) + Suffix(name)
  }

  /** Different counters give different names, so each round of the loop
      tries a name not tried before. */
  lemma CandidateInjective(name: string, a: nat, b: nat)
    requires Candidate(name, a) == Candidate(name, b)
    ensures a == b
  {
    StemSuffixSplit(name);
    var stem, suffix := Stem(name), Suffix(name);
    if a != 0 && b != 0 {
      var ca, cb := Candidate(name, a), Candidate(name, b);
      var na, nb := NatToString(a), NatToString(b);
      assert |na| == |nb|;
      assert ca[|stem| + 1..|stem| + 1 + |na|] == na;
      assert cb[|stem| + 1..|stem| + 1 + |nb|] == nb;
      NatToStringInjective(a, b);
    }
  }

  /** Every name tried for a component is a component: the counter adds only
      an underscore and digits. */
  lemma CandidatePart(name: Component, k: nat)
    ensures IsPart(Candidate(name, k))
  {
    if k > 0 {
      var stem, digits, suffix := Stem(name), NatToString(k), Suffix(name);
      var c := Candidate(name, k);
      assert c == stem + "_" + digits + suffix;
      assert forall i :: 0 <= i < |stem| ==> stem[i] == name[i];
      assert forall i :: 0 <= i < |suffix| ==> suffix[i] == name[|name| - |suffix| + i];
      forall i | 0 <= i < |c|
        ensures c[i] != '/'
      {
        if i < |stem| {
          assert c[i] == stem[i];
        } else if i == |stem| {
          assert c[i] == '_';
        } else if i < |stem| + 1 + |digits| {
          assert c[i] == digits[i - |stem| - 1];
        } else {
          assert c[i] == suffix[i - |stem| - 1 - |digits|];
        }
      }
      assert |c| >= 2;
    }
  }

  /** The names tried before the k-th one. */
  function TriedBefore(name: string, k: nat): set<string> {
    if k == 0 then {} else TriedBefore(name, k - 1) + {Candidate(name, k - 1)}
  }

  /** A name not tried yet is not among those tried. */
  lemma {:induction false} NotTriedYet(name: string, k: nat, m: nat)
    requires k <= m
    ensures Candidate(name, m) !in TriedBefore(name, k)
  {
    if k > 0 {
      NotTriedYet(name, k - 1, m);
      if Candidate(name, m) == Candidate(name, k - 1) {
        CandidateInjective(name, m, k - 1);
      }
    }
  }

  /** The loop has tried k distinct names after k rounds. */
  lemma {:induction false} TriedBeforeSize(name: string, k: nat)
    ensures |TriedBefore(name, k)| == k
  {
    if k > 0 {
      TriedBeforeSize(name, k - 1);
      NotTriedYet(name, k - 1, k - 1);
    }
  }

  /** If every name tried so far is taken, all of them are among the names taken. */
  lemma {:induction false} TriedBeforeWithin(existing: set<string>, name: string, k: nat)
    requires forall j :: 0 <= j < k ==> Candidate(name, j) in existing
    ensures TriedBefore(name, k) <= existing
  {
    if k > 0 {
      TriedBeforeWithin(existing, name, k - 1);
    }
  }

  /** k is the counter of the first name not among `existing`. */
  predicate ChosenIndex(existing: set<string>, name: string, k: nat) {
    Candidate(name, k) !in existing && forall j :: 0 <= j < k ==> Candidate(name, j) in existing
  }

  /** There is only one first free name; it is the file's own name exactly when
      that is free, and the counter never exceeds the number of names taken. */
  lemma ChosenIndexFacts(existing: set<string>, name: string, k: nat, k': nat)
    requires ChosenIndex(existing, name, k) && ChosenIndex(existing, name, k')
    ensures k == k'
    ensures k == 0 <==> name !in existing
    ensures k <= |existing|
  {
    assert Candidate(name, 0) == name;
    TriedBeforeSize(name, k);
    TriedBeforeWithin(existing, name, k);
    SubsetSize(TriedBefore(name, k), existing);
  }

  /** With `a.json` and `a_1.json` taken, a third `a.json` becomes `a_2.json`. */
  lemma CollisionExample()
    ensures ChosenIndex({"a.json", "a_1.json"}, "a.json", 2)
    ensures Candidate("a.json", 2) == "a_2.json"
  {
    var name := "a.json";
    assert LastIndexOf(name, '.') == 1 by {
      assert name[1] == '.';
    }
    assert Stem(name) == "a" && Suffix(name) == ".json";
    assert NatToString(1) == "1" && NatToString(2) == "2";
    assert Candidate(name, 1) == "a_1.json";
    assert Candidate(name, 2) == "a_2.json";
    forall j | 0 <= j < 2
      ensures Candidate(name, j) in {"a.json", "a_1.json"}
    {
      if j == 1 {
        assert Candidate(name, j) == "a_1.json";
      }
    }
  }

  lemma SubsetSize<T>(a: set<T>, b: set<T>)
    requires a <= b
    ensures |a| <= |b|
  {
    if a != {} {
      var x :| x in a;
      SubsetSize(a - {x}, b - {x});
    }
  }
}
