/** The keys under which side effects are deduplicated. */
module IdempotencyKey {
  import opened Sorting
  import CJ = CanonicalJson

  datatype KeyInput = KeyInput(
    tenantId: string, projectId: string, runId: string, taskId: string, stage: string, attempt: int,
    sideEffectType: string, normalizedInput: CJ.Json)

  datatype Reason = BadAttempt | Empty(field: string) | HasColon(field: string)
  datatype Result<+T> = Ok(value: T) | Error(reason: Reason)

  /** SHA-256 in hexadecimal: all that is assumed of it is the length of its digests. */
  ghost predicate IsDigest(sha: string -> string) {
    forall x :: |sha(x)| == 64
  }

  /** Two different texts with one digest. */
  predicate Collide(sha: string -> string, x: string, y: string) {
    x != y && sha(x) == sha(y)
  }

  /** The white space and line terminators that String.prototype.trim removes. */
  predicate IsSpace(c: char) {
    '\t' <= c <= '\r' || c == ' ' || c == '\U{A0}' || c == '\U{1680}' || '\U{2000}' <= c <= '\U{200A}' ||
    c == '\U{2028}' || c == '\U{2029}' || c == '\U{202F}' || c == '\U{205F}' || c == '\U{3000}' || c == '\U{FEFF}'
  }

  function TrimStart(s: string): string {
    if s != "" && IsSpace(s[0]) then TrimStart(s[1..]) else s
  }

  function TrimEnd(s: string): string {
    if s != "" && IsSpace(s[|s| - 1]) then TrimEnd(s[..|s| - 1]) else s
  }

  function Trim(s: string): string {
    TrimEnd(TrimStart(s))
  }

  predicate AllSpace(s: string) {
    forall i | 0 <= i < |s| :: IsSpace(s[i])
  }

  lemma {:induction false} TrimStartDrops(s: string) returns (pre: string)
    ensures AllSpace(pre) && s == pre + TrimStart(s)
    ensures TrimStart(s) != "" ==> !IsSpace(TrimStart(s)[0])
  {
    if s != "" && IsSpace(s[0]) {
      var rest := TrimStartDrops(s[1..]);
      pre := [s[0]] + rest;
      assert s == [s[0]] + s[1..];
    } else {
      pre := "";
    }
  }

  lemma {:induction false} TrimEndDrops(s: string) returns (post: string)
    ensures AllSpace(post) && s == TrimEnd(s) + post
    ensures TrimEnd(s) != "" ==> !IsSpace(TrimEnd(s)[|TrimEnd(s)| - 1])
  {
    if s != "" && IsSpace(s[|s| - 1]) {
      var rest := TrimEndDrops(s[..|s| - 1]);
      post := rest + [s[|s| - 1]];
      assert s == s[..|s| - 1] + [s[|s| - 1]];
    } else {
      post := "";
    }
  }

  /** Trimming takes white space off both ends, all of it, and nothing else. */
  lemma TrimDropsSpace(s: string) returns (pre: string, post: string)
    ensures AllSpace(pre) && AllSpace(post) && s == pre + Trim(s) + post
    ensures Trim(s) != "" ==> !IsSpace(Trim(s)[0]) && !IsSpace(Trim(s)[|Trim(s)| - 1])
  {
    pre := TrimStartDrops(s);
    post := TrimEndDrops(TrimStart(s));
    assert Trim(s) != "" ==> Trim(s)[0] == TrimStart(s)[0];
    assert s == pre + Trim(s) + post;
  }

  function KeyPart(value: string, field: string): (r: Result<string>)
    ensures r.Ok? ==> r.value == Trim(value) && r.value != "" && ':' !in r.value
    ensures r.Ok? <==> Trim(value) != "" && ':' !in Trim(value)
  {
    var trimmed := Trim(value);
    if trimmed == "" then Error(Empty(field))
    else if ':' in trimmed then Error(HasColon(field))
    else Ok(trimmed)
  }

  function Digits(n: nat): string {
    if n < 10 then ['0' + n as char] else Digits(n / 10) + ['0' + (n % 10) as char]
  }

  function Join(parts: seq<string>): string
    requires parts != []
  {
    if |parts| == 1 then parts[0] else parts[0] + ":" + Join(parts[1..])
  }

  /** The parts of a key, or the first reason to refuse it. */
  function KeyParts(le: (string, string) -> bool, sha: string -> string, x: KeyInput): (r: Result<seq<string>>)
    ensures r.Ok? ==> |r.value| == 7
  {
    if x.attempt < 0 then Error(BadAttempt)
    else
      var actionHash := sha(CJ.Canonicalize(le, x.normalizedInput));
      var tenant, project := KeyPart(x.tenantId, "tenantId"), KeyPart(x.projectId, "projectId");
      var run, task := KeyPart(x.runId, "runId"), KeyPart(x.taskId, "taskId");
      var stage, effect := KeyPart(x.stage, "stage"), KeyPart(x.sideEffectType, "sideEffectType");
      if tenant.Error? then Error(tenant.reason)
      else if project.Error? then Error(project.reason)
      else if run.Error? then Error(run.reason)
      else if task.Error? then Error(task.reason)
      else if stage.Error? then Error(stage.reason)
      else if effect.Error? then Error(effect.reason)
      else
        Ok([tenant.value, project.value, run.value, task.value, stage.value, Digits(x.attempt),
            effect.value + "-" + actionHash])
  }

  function BuildIdempotencyKey(le: (string, string) -> bool, sha: string -> string, x: KeyInput): Result<string> {
    var parts := KeyParts(le, sha, x);
    if parts.Error? then Error(parts.reason) else Ok(Join(parts.value))
  }

  predicate Usable(value: string) {
    Trim(value) != "" && ':' !in Trim(value)
  }

  /** The parts that are checked, in the order in which they are, under the names used in a refusal. */
  function NamedParts(x: KeyInput): seq<(string, string)> {
    [(x.tenantId, "tenantId"), (x.projectId, "projectId"), (x.runId, "runId"), (x.taskId, "taskId"),
     (x.stage, "stage"), (x.sideEffectType, "sideEffectType")]
  }

  predicate FirstUnusable(parts: seq<(string, string)>, k: nat) {
    k < |parts| && !Usable(parts[k].0) && forall j | 0 <= j < k :: Usable(parts[j].0)
  }

  /** A call gets a key exactly when its attempt and all its parts are usable; else the first that is not is named. */
  lemma KeyBuiltIff(le: (string, string) -> bool, sha: string -> string, x: KeyInput)
    ensures var r, parts := BuildIdempotencyKey(le, sha, x), NamedParts(x);
            && (r.Ok? <==> x.attempt >= 0 && forall k | 0 <= k < |parts| :: Usable(parts[k].0))
            && (r.Error? ==>
                  if x.attempt < 0 then r.reason == BadAttempt
                  else exists k: nat :: FirstUnusable(parts, k) &&
                         r.reason == if Trim(parts[k].0) == "" then Empty(parts[k].1) else HasColon(parts[k].1))
  {
    hide Trim, Join, CJ.Canonicalize, Digits;
    var parts := NamedParts(x);
    assert Usable(x.tenantId) == Usable(parts[0].0) && Usable(x.projectId) == Usable(parts[1].0);
    assert Usable(x.runId) == Usable(parts[2].0) && Usable(x.taskId) == Usable(parts[3].0);
    assert Usable(x.stage) == Usable(parts[4].0) && Usable(x.sideEffectType) == Usable(parts[5].0);
    if x.attempt >= 0 && exists k: nat :: k < |parts| && !Usable(parts[k].0) {
      var k := if !Usable(x.tenantId) then 0 else if !Usable(x.projectId) then 1 else if !Usable(x.runId) then 2
               else if !Usable(x.taskId) then 3 else if !Usable(x.stage) then 4 else 5;
      assert FirstUnusable(parts, k);
    }
  }

  function DigitsValue(s: string): int {
    if s == "" then 0 else DigitsValue(s[..|s| - 1]) * 10 + (s[|s| - 1] as int - '0' as int)
  }

  lemma {:induction false} DigitsRoundTrip(n: nat)
    ensures DigitsValue(Digits(n)) == n && ':' !in Digits(n)
  {
    if n >= 10 {
      DigitsRoundTrip(n / 10);
      assert Digits(n)[..|Digits(n)| - 1] == Digits(n / 10);
    } else {
      assert Digits(n)[..0] == "";
    }
  }

  function BeforeColon(s: string): nat {
    if s == "" || s[0] == ':' then 0 else 1 + BeforeColon(s[1..])
  }

  lemma {:induction false} ColonComesFirst(a: string, x: string)
    requires ':' !in a
    ensures BeforeColon(a + ":" + x) == |a|
  {
    var s := a + ":" + x;
    if a != "" {
      assert s[0] == a[0] && s[1..] == a[1..] + ":" + x;
      ColonComesFirst(a[1..], x);
    }
  }

  lemma CutAtColon(a: string, x: string, b: string, y: string)
    requires ':' !in a && ':' !in b && a + ":" + x == b + ":" + y
    ensures a == b && x == y
  {
    var s, t := a + ":" + x, b + ":" + y;
    ColonComesFirst(a, x);
    ColonComesFirst(b, y);
    assert a == s[..|a|] == t[..|a|] == b;
    assert x == s[|a| + 1..] == t[|a| + 1..] == y;
  }

  lemma {:induction false} JoinIsInjective(p: seq<string>, q: seq<string>)
    requires p != [] && |p| == |q| && Join(p) == Join(q)
    requires forall i | 0 <= i < |p| - 1 :: ':' !in p[i] && ':' !in q[i]
    ensures p == q
  {
    if |p| > 1 {
      CutAtColon(p[0], Join(p[1..]), q[0], Join(q[1..]));
      JoinIsInjective(p[1..], q[1..]);
      assert p == [p[0]] + p[1..] && q == [q[0]] + q[1..];
    }
  }

  predicate SameParts(a: KeyInput, b: KeyInput) {
    && Trim(a.tenantId) == Trim(b.tenantId) && Trim(a.projectId) == Trim(b.projectId)
    && Trim(a.runId) == Trim(b.runId) && Trim(a.taskId) == Trim(b.taskId) && Trim(a.stage) == Trim(b.stage)
    && a.attempt == b.attempt && Trim(a.sideEffectType) == Trim(b.sideEffectType)
  }

  lemma SuffixOfLength(a: string, x: string, b: string, y: string)
    requires |x| == |y| && a + "-" + x == b + "-" + y
    ensures a == b && x == y
  {
    var s, t := a + "-" + x, b + "-" + y;
    assert a == s[..|a|] && b == t[..|a|];
    assert x == s[|a| + 1..] && y == t[|a| + 1..];
  }

  lemma EqualParts(le: (string, string) -> bool, sha: string -> string, a: KeyInput, b: KeyInput)
    requires IsDigest(sha) && KeyParts(le, sha, a).Ok? && KeyParts(le, sha, b).Ok?
    ensures KeyParts(le, sha, a) == KeyParts(le, sha, b)
       <==> SameParts(a, b)
            && sha(CJ.Canonicalize(le, a.normalizedInput)) == sha(CJ.Canonicalize(le, b.normalizedInput))
  {
    hide CJ.Canonicalize, Trim, Digits;
    var p, q := KeyParts(le, sha, a).value, KeyParts(le, sha, b).value;
    var x, y := sha(CJ.Canonicalize(le, a.normalizedInput)), sha(CJ.Canonicalize(le, b.normalizedInput));
    DigitsRoundTrip(a.attempt);
    DigitsRoundTrip(b.attempt);
    if p == q {
      assert p[5] == q[5] && p[6] == q[6];
      SuffixOfLength(Trim(a.sideEffectType), x, Trim(b.sideEffectType), y);
      assert p[0] == q[0] && p[1] == q[1] && p[2] == q[2] && p[3] == q[3] && p[4] == q[4];
    }
  }

  lemma PartsHaveNoColon(le: (string, string) -> bool, sha: string -> string, x: KeyInput)
    requires KeyParts(le, sha, x).Ok?
    ensures forall i | 0 <= i < 6 :: ':' !in KeyParts(le, sha, x).value[i]
  {
    hide CJ.Canonicalize, Trim, Digits;
    DigitsRoundTrip(x.attempt);
  }

  /**
   * Two calls that get a key get the same one exactly when their trimmed parts, attempts and effect types agree and
   * their inputs are equal up to the order of keys, unless two different canonical texts have one digest.
   */
  lemma KeysAgree(le: (string, string) -> bool, sha: string -> string, a: KeyInput, b: KeyInput)
    requires TotalOrder(le) && IsDigest(sha)
    requires CJ.WellFormed(a.normalizedInput) && CJ.WellFormed(b.normalizedInput)
    requires BuildIdempotencyKey(le, sha, a).Ok? && BuildIdempotencyKey(le, sha, b).Ok?
    ensures BuildIdempotencyKey(le, sha, a) == BuildIdempotencyKey(le, sha, b)
       <==> SameParts(a, b) &&
            (CJ.Equivalent(a.normalizedInput, b.normalizedInput) ||
             Collide(sha, CJ.Canonicalize(le, a.normalizedInput), CJ.Canonicalize(le, b.normalizedInput)))
  {
    hide KeyParts, Join, CJ.Canonicalize, CJ.Equivalent, CJ.WellFormed, TotalOrder, IsDigest, SameParts;
    CJ.CanonicalTextsAgree(le, a.normalizedInput, b.normalizedInput);
    EqualParts(le, sha, a, b);
    PartsHaveNoColon(le, sha, a);
    PartsHaveNoColon(le, sha, b);
    if BuildIdempotencyKey(le, sha, a) == BuildIdempotencyKey(le, sha, b) {
      JoinIsInjective(KeyParts(le, sha, a).value, KeyParts(le, sha, b).value);
    }
  }
}
