/**
 The login frame `connect:key=value;...`: how its fields are read, which tokens are
 accepted, and the clock arithmetic behind the 30-second tolerance. Decoding and verifying
 the token itself is a parameter.
 */
module Logins {
  import opened Seqs
  import opened Wrappers
  import opened Text
  import Server = ServerSteps

  // -------------------------------------------------------------------- fields

  type Fields = map<string, string>

  function Key(part: string): string {
    part[..Find(part, '=')]
  }

  predicate KeyValue(part: string) {
    0 < Find(part, '=') < |part|
  }

  function ValueOf(part: string): string
    requires KeyValue(part)
  {
    part[Find(part, '=') + 1..]
  }

  /** One more field; malformed and duplicate ones spoil everything. */
  function Insert(fields: Option<Fields>, part: string): Option<Fields> {
    if fields.None? || !KeyValue(part) || Key(part) in fields.value then None
    else Some(fields.value[Key(part) := ValueOf(part)])
  }

  function FieldsOf(parts: seq<string>): Option<Fields> {
    if parts == [] then Some(map[]) else Insert(FieldsOf(Front(parts)), Last(parts))
  }

  method ReadFields(parts: seq<string>) returns (fields: Option<Fields>)
    ensures fields == FieldsOf(parts)
  {
    var m: Fields := map[];
    for k := 0 to |parts|
      invariant FieldsOf(parts[..k]) == Some(m)
    {
      assert Front(parts[..k + 1]) == parts[..k];
      var pos := Find(parts[k], '=');
      if pos == |parts[k]| || pos == 0 || parts[k][..pos] in m {
        Spoiled(parts, k + 1);
        return None;
      }
      m := m[parts[k][..pos] := parts[k][pos + 1..]];
    }
    assert parts[..|parts|] == parts;
    fields := Some(m);
  }

  lemma {:induction false} Spoiled(parts: seq<string>, k: nat)
    requires k <= |parts| && FieldsOf(parts[..k]).None?
    ensures FieldsOf(parts).None?
    decreases |parts| - k
  {
    if k < |parts| {
      assert Front(parts[..k + 1]) == parts[..k];
      Spoiled(parts, k + 1);
    } else {
      assert parts[..k] == parts;
    }
  }

  lemma InsertCommutes(fields: Option<Fields>, x: string, y: string)
    ensures Insert(Insert(fields, x), y) == Insert(Insert(fields, y), x)
  {
    if fields.Some? && KeyValue(x) && KeyValue(y) && Key(x) != Key(y) {
      var m := fields.value;
      assert m[Key(x) := ValueOf(x)][Key(y) := ValueOf(y)] == m[Key(y) := ValueOf(y)][Key(x) := ValueOf(x)];
    }
  }

  lemma FieldsSnoc(parts: seq<string>, x: string)
    ensures FieldsOf(parts + [x]) == Insert(FieldsOf(parts), x)
  {
    assert Front(parts + [x]) == parts;
  }

  lemma {:induction false} MoveToEnd(a: seq<string>, x: string, b: seq<string>)
    ensures FieldsOf(a + [x] + b) == FieldsOf(a + b + [x])
  {
    if b == [] {
      assert a + [x] + b == a + b + [x];
    } else {
      var y, rest := Last(b), Front(b);
      assert b == rest + [y];
      assert a + [x] + b == (a + [x] + rest) + [y];
      assert a + b == (a + rest) + [y];
      MoveToEnd(a, x, rest);
      FieldsSnoc(a + [x] + rest, y);
      FieldsSnoc(a + rest, x);
      FieldsSnoc(a + rest, y);
      FieldsSnoc(a + b, x);
      InsertCommutes(FieldsOf(a + rest), x, y);
    }
  }

  lemma WithoutOne(p: seq<string>, a: seq<string>, x: string, b: seq<string>)
    requires multiset(p + [x]) == multiset(a + [x] + b)
    ensures multiset(p) == multiset(a + b)
  {
    assert multiset(p) == multiset(p + [x]) - multiset{x};
    assert multiset(a + [x] + b) == multiset(a + b) + multiset{x};
    assert multiset(a + b) == multiset(a + [x] + b) - multiset{x};
  }

  /** The order of the fields does not matter. */
  lemma {:induction false} OrderIrrelevant(p: seq<string>, q: seq<string>)
    requires multiset(p) == multiset(q)
    ensures FieldsOf(p) == FieldsOf(q)
    decreases |p|
  {
    if p == [] {
      assert |q| == |multiset(q)| == 0;
    } else {
      var x := Last(p);
      assert p == Front(p) + [x];
      assert x in multiset(q);
      var k :| 0 <= k < |q| && q[k] == x;
      var a, b := q[..k], q[k + 1..];
      assert q == a + [x] + b;
      WithoutOne(Front(p), a, x, b);
      OrderIrrelevant(Front(p), a + b);
      MoveToEnd(a, x, b);
      FieldsSnoc(a + b, x);
    }
  }

  lemma {:induction false} KeysListed(parts: seq<string>, i: nat)
    requires i < |parts| && FieldsOf(parts).Some?
    ensures KeyValue(parts[i]) && Key(parts[i]) in FieldsOf(parts).value
            && FieldsOf(parts).value[Key(parts[i])] == ValueOf(parts[i])
  {
    if i < |parts| - 1 {
      KeysListed(Front(parts), i);
    }
  }

  /** Two fields with the same key, wherever they stand, spoil the login. */
  lemma {:induction false} DuplicateSpoils(parts: seq<string>, i: nat, j: nat)
    requires i < j < |parts| && Key(parts[i]) == Key(parts[j])
    ensures FieldsOf(parts).None?
  {
    if j < |parts| - 1 {
      DuplicateSpoils(Front(parts), i, j);
    } else if FieldsOf(Front(parts)).Some? {
      KeysListed(Front(parts), i);
    }
  }

  /** Conversely, well-formed fields with distinct keys are all read. */
  lemma {:induction false} DistinctKeysRead(parts: seq<string>)
    requires forall i :: 0 <= i < |parts| ==> KeyValue(parts[i])
    requires forall i, j :: 0 <= i < j < |parts| ==> Key(parts[i]) != Key(parts[j])
    ensures FieldsOf(parts).Some?
    ensures forall k :: k in FieldsOf(parts).value ==> exists i :: 0 <= i < |parts| && Key(parts[i]) == k
  {
    if parts != [] {
      var rest := Front(parts);
      DistinctKeysRead(rest);
      forall k | k in FieldsOf(rest).value ensures exists i :: 0 <= i < |parts| - 1 && Key(parts[i]) == k {
        var i :| 0 <= i < |rest| && Key(rest[i]) == k;
        assert Key(parts[i]) == k;
      }
      assert Key(Last(parts)) !in FieldsOf(rest).value;
      assert Key(parts[|parts| - 1]) == Key(Last(parts));
    }
  }

  // ---------------------------------------------------------------------- clock

  const TOLERANCE := 30
  const NANOS := 1_000_000_000
  const INT64_MAX := 0x7fff_ffff_ffff_ffff
  const INT64_MIN := -0x8000_0000_0000_0000

  /** What 64-bit clock arithmetic yields. */
  function Wrap64(x: int): int {
    (x - INT64_MIN) % 0x1_0000_0000_0000_0000 + INT64_MIN
  }

  predicate InClock(x: int) {
    INT64_MIN <= x <= INT64_MAX
  }

  /** Seconds since the epoch as a clock value. */
  function FromSeconds(s: int): int {
    Wrap64(s * NANOS)
  }

  /** Largest number of seconds accepted in a claim. */
  const MAX_SECONDS := INT64_MAX / NANOS - TOLERANCE

  lemma WrapExact(x: int)
    ensures Wrap64(x) == x <==> InClock(x)
  {
  }

  /** The bound on the claims is exactly what keeps `exp` plus the tolerance inside the clock. */
  lemma BoundIsExact(s: int)
    requires s >= 0
    ensures s <= MAX_SECONDS <==> InClock((s + TOLERANCE) * NANOS)
    ensures s <= MAX_SECONDS ==> InClock(s * NANOS) && InClock((s - TOLERANCE) * NANOS)
  {
    assert MAX_SECONDS == 9_223_372_006;
  }

  /** With both claims in range every comparison is the one on true seconds. */
  lemma ToleranceExact(s: int)
    requires 0 <= s <= MAX_SECONDS
    ensures Wrap64(FromSeconds(s) + TOLERANCE * NANOS) == (s + TOLERANCE) * NANOS
    ensures Wrap64(FromSeconds(s) - TOLERANCE * NANOS) == (s - TOLERANCE) * NANOS
  {
    BoundIsExact(s);
    WrapExact(s * NANOS);
    WrapExact((s + TOLERANCE) * NANOS);
    WrapExact((s - TOLERANCE) * NANOS);
  }

  // ---------------------------------------------------------------------- token

  /** A claim as the token library reports it: absent or of the wrong type, or its value. */
  datatype Claim<T> = Unusable | Present(value: T)

  datatype Roles = NoRoles | NotAnArray | RoleList(entries: seq<Claim<string>>)

  /** A decoded token; `verifies` is the library's verdict on signature, `nbf` and the
      registered claims for the server's secret at the moment of the login. */
  datatype Token = Token(
    alg: Claim<string>, iat: Claim<int>, exp: Claim<int>, issuer: Claim<string>, audience: Claim<set<string>>,
    verifies: bool, characterName: Claim<string>, roles: Roles)

  datatype Reason =
    | NoSecret | NotALogin | BadFields | NoName | NoPass | BadToken
    | NoAlgorithm | WrongAlgorithm | BadIat | BadExp | BadIssuer | BadAudience
    | NeverValid | Expired | FromTheFuture | NotVerified | BadCharacterName | NameMismatch | BadRoles

  datatype Outcome =
    | Accepted(isAdmin: bool, expiresAt: int, characterName: string, zone: string)
    | Rejected(reason: Reason)

  predicate Seconds(c: Claim<int>) {
    c.Present? && 0 <= c.value <= MAX_SECONDS
  }

  predicate RolesReadable(r: Roles) {
    r.NoRoles? || (r.RoleList? && forall i :: 0 <= i < |r.entries| ==> r.entries[i].Present?)
  }

  predicate IsChatAdmin(r: Roles) {
    r.RoleList? && exists i :: 0 <= i < |r.entries| && r.entries[i] == Present("chat_admin")
  }

  method ReadRoles(roles: Roles) returns (ok: bool, isAdmin: bool)
    ensures ok == RolesReadable(roles)
    ensures ok ==> isAdmin == IsChatAdmin(roles)
  {
    isAdmin := false;
    if roles.NoRoles? {
      return true, false;
    }
    if roles.NotAnArray? {
      return false, false;
    }
    for i := 0 to |roles.entries|
      invariant forall j :: 0 <= j < i ==> roles.entries[j].Present?
      invariant isAdmin <==> exists j :: 0 <= j < i && roles.entries[j] == Present("chat_admin")
    {
      if roles.entries[i].Unusable? {
        return false, isAdmin;
      }
      if roles.entries[i].value == "chat_admin" {
        isAdmin := true;
      }
    }
    ok := true;
  }

  /** What the three comparisons decide, in true seconds. */
  function TimesProblem(iat: int, exp: int, now: int): Option<Reason> {
    if exp <= iat then Some(NeverValid)
    else if now >= (exp + TOLERANCE) * NANOS then Some(Expired)
    else if now < (iat - TOLERANCE) * NANOS then Some(FromTheFuture)
    else None
  }

  /** The comparisons as they are made, in 64-bit clock arithmetic. */
  method CheckTimes(iat: int, exp: int, now: int) returns (problem: Option<Reason>)
    requires 0 <= iat <= MAX_SECONDS && 0 <= exp <= MAX_SECONDS
    ensures problem == TimesProblem(iat, exp, now)
  {
    ToleranceExact(iat);
    ToleranceExact(exp);
    SecondsOrdered(iat, exp);
    if FromSeconds(exp) <= FromSeconds(iat) {
      return Some(NeverValid);
    }
    if now >= Wrap64(FromSeconds(exp) + TOLERANCE * NANOS) {
      return Some(Expired);
    }
    if now < Wrap64(FromSeconds(iat) - TOLERANCE * NANOS) {
      return Some(FromTheFuture);
    }
    problem := None;
  }

  lemma SecondsOrdered(a: int, b: int)
    requires 0 <= a <= MAX_SECONDS && 0 <= b <= MAX_SECONDS
    ensures FromSeconds(b) <= FromSeconds(a) <==> b <= a
  {
    BoundIsExact(a);
    BoundIsExact(b);
    WrapExact(a * NANOS);
    WrapExact(b * NANOS);
  }

  // -------------------------------------------------------------------- verdict

  function TokenProblem(t: Token, now: int): Option<Reason> {
    if t.alg.Unusable? then Some(NoAlgorithm)
    else if t.alg.value != "HS256" then Some(WrongAlgorithm)
    else if !Seconds(t.iat) then Some(BadIat)
    else if !Seconds(t.exp) then Some(BadExp)
    else if t.issuer != Present("dara-game-server") then Some(BadIssuer)
    else if t.audience.Unusable? || "dara-chat" !in t.audience.value then Some(BadAudience)
    else if TimesProblem(t.iat.value, t.exp.value, now).Some? then TimesProblem(t.iat.value, t.exp.value, now)
    else if !t.verifies then Some(NotVerified)
    else None
  }

  method CheckToken(t: Token, now: int) returns (problem: Option<Reason>)
    ensures problem == TokenProblem(t, now)
  {
    if t.alg.Unusable? {
      return Some(NoAlgorithm);
    }
    if t.alg.value != "HS256" {
      return Some(WrongAlgorithm);
    }
    if !Seconds(t.iat) {
      return Some(BadIat);
    }
    if !Seconds(t.exp) {
      return Some(BadExp);
    }
    if t.issuer != Present("dara-game-server") {
      return Some(BadIssuer);
    }
    if t.audience.Unusable? || "dara-chat" !in t.audience.value {
      return Some(BadAudience);
    }
    problem := CheckTimes(t.iat.value, t.exp.value, now);
    if problem.None? && !t.verifies {
      problem := Some(NotVerified);
    }
  }

  function HolderVerdict(fields: Fields, t: Token): Outcome
    requires "name" in fields && t.exp.Present?
  {
    if t.characterName.Unusable? || t.characterName.value == "" then Rejected(BadCharacterName)
    else if fields["name"] != t.characterName.value then Rejected(NameMismatch)
    else if !RolesReadable(t.roles) then Rejected(BadRoles)
    else
      Accepted(IsChatAdmin(t.roles), t.exp.value, t.characterName.value, if "zone" in fields then fields["zone"] else "")
  }

  /** The verdict once the fields have been read: it sees nothing else of the message. */
  function FieldsVerdict(fields: Option<Fields>, now: int, decode: string -> Option<Token>): Outcome {
    if fields.None? then Rejected(BadFields)
    else
      var m := fields.value;
      if "name" !in m || m["name"] == "" then Rejected(NoName)
      else if "pass" !in m || m["pass"] == "" then Rejected(NoPass)
      else
        match decode(m["pass"])
        case None => Rejected(BadToken)
        case Some(t) =>
          match TokenProblem(t, now)
          case Some(reason) => Rejected(reason)
          case None => HolderVerdict(m, t)
  }

  const LOGIN_PREFIX := "connect:"

  function Verdict(message: string, secret: string, now: int, decode: string -> Option<Token>): Outcome {
    if secret == "" then Rejected(NoSecret)
    else if !(LOGIN_PREFIX <= message) then Rejected(NotALogin)
    else FieldsVerdict(FieldsOf(Lines(message[|LOGIN_PREFIX|..], ';')), now, decode)
  }

  method VerifyLogin(message: string, secret: string, now: int, decode: string -> Option<Token>) returns (r: Outcome)
    ensures r == Verdict(message, secret, now, decode)
  {
    if secret == "" {
      return Rejected(NoSecret);
    }
    if !(LOGIN_PREFIX <= message) {
      return Rejected(NotALogin);
    }
    var fields := ReadFields(Lines(message[|LOGIN_PREFIX|..], ';'));
    if fields.None? {
      return Rejected(BadFields);
    }
    r := VerifyFields(fields.value, now, decode);
  }

  method VerifyFields(m: Fields, now: int, decode: string -> Option<Token>) returns (r: Outcome)
    ensures r == FieldsVerdict(Some(m), now, decode)
  {
    if "name" !in m || m["name"] == "" {
      return Rejected(NoName);
    }
    if "pass" !in m || m["pass"] == "" {
      return Rejected(NoPass);
    }
    var decoded := decode(m["pass"]);
    if decoded.None? {
      return Rejected(BadToken);
    }
    var t := decoded.value;
    var problem := CheckToken(t, now);
    if problem.Some? {
      return Rejected(problem.value);
    }
    if t.characterName.Unusable? || t.characterName.value == "" {
      return Rejected(BadCharacterName);
    }
    if m["name"] != t.characterName.value {
      return Rejected(NameMismatch);
    }
    var ok, isAdmin := ReadRoles(t.roles);
    if !ok {
      return Rejected(BadRoles);
    }
    r := Accepted(isAdmin, t.exp.value, t.characterName.value, if "zone" in m then m["zone"] else "");
  }

  // --------------------------------------------------------- what a verdict means

  ghost predicate Plain(parts: seq<string>) {
    AllFree(parts, ';') && forall i :: 0 <= i < |parts| ==> parts[i] != ""
  }

  function LoginText(parts: seq<string>): string {
    LOGIN_PREFIX + Join(parts, ';')
  }

  lemma LinesOfJoin(parts: seq<string>)
    requires Plain(parts)
    ensures Lines(Join(parts, ';'), ';') == parts
  {
    if parts == [] {
      SplitWhole("", ';');
    } else {
      SplitJoin(parts, ';');
    }
  }

  lemma LoginTextVerdict(parts: seq<string>, secret: string, now: int, decode: string -> Option<Token>)
    requires Plain(parts)
    ensures Verdict(LoginText(parts), secret, now, decode) ==
            if secret == "" then Rejected(NoSecret) else FieldsVerdict(FieldsOf(parts), now, decode)
  {
    LinesOfJoin(parts);
    assert LoginText(parts)[|LOGIN_PREFIX|..] == Join(parts, ';');
  }

  /** Every ordering of the same fields gives the same outcome, rejections included. */
  lemma AnyOrderSameOutcome(p: seq<string>, q: seq<string>, secret: string, now: int, decode: string -> Option<Token>)
    requires Plain(p) && Plain(q) && multiset(p) == multiset(q)
    ensures Verdict(LoginText(p), secret, now, decode) == Verdict(LoginText(q), secret, now, decode)
  {
    OrderIrrelevant(p, q);
    LoginTextVerdict(p, secret, now, decode);
    LoginTextVerdict(q, secret, now, decode);
  }

  /** A key given twice is always refused. */
  lemma DuplicateRefused(parts: seq<string>, i: nat, j: nat, secret: string, now: int, decode: string -> Option<Token>)
    requires Plain(parts) && i < j < |parts| && Key(parts[i]) == Key(parts[j])
    ensures Verdict(LoginText(parts), secret, now, decode).Rejected?
  {
    DuplicateSpoils(parts, i, j);
    LoginTextVerdict(parts, secret, now, decode);
  }

  lemma {:induction false} ValuesFree(parts: seq<string>, d: char)
    requires AllFree(parts, d) && FieldsOf(parts).Some?
    ensures forall k :: k in FieldsOf(parts).value ==> d !in FieldsOf(parts).value[k]
  {
    if parts != [] {
      ValuesFree(Front(parts), d);
      assert d !in parts[|parts| - 1];
    }
  }

  /** The fields of a login frame and the token they carry. */
  function FieldsIn(message: string): Option<Fields> {
    if LOGIN_PREFIX <= message then FieldsOf(Lines(message[|LOGIN_PREFIX|..], ';')) else None
  }

  function TokenIn(message: string, decode: string -> Option<Token>): Option<Token> {
    var fields := FieldsIn(message);
    if fields.Some? && "pass" in fields.value && fields.value["pass"] != "" then decode(fields.value["pass"]) else None
  }

  predicate TokenTimely(t: Token, now: int) {
    && Seconds(t.iat) && Seconds(t.exp) && t.iat.value < t.exp.value
    && (t.iat.value - 30) * 1_000_000_000 <= now < (t.exp.value + 30) * 1_000_000_000
  }

  predicate TokenGood(t: Token, now: int) {
    && t.alg == Present("HS256") && t.issuer == Present("dara-game-server")
    && t.audience.Present? && "dara-chat" in t.audience.value
    && TokenTimely(t, now) && t.verifies && RolesReadable(t.roles)
  }

  /** The token names the character the frame asks for. */
  predicate Names(t: Token, fields: Fields) {
    "name" in fields && fields["name"] != "" && t.characterName == Present(fields["name"])
  }

  /** A login is accepted exactly when the server has a secret, the fields are well formed and
      distinct, and the token is good for now and for the name asked for. */
  lemma AcceptedExactly(message: string, secret: string, now: int, decode: string -> Option<Token>)
    ensures Verdict(message, secret, now, decode).Accepted? <==>
      && secret != "" && FieldsIn(message).Some?
      && TokenIn(message, decode).Some? && TokenGood(TokenIn(message, decode).value, now)
      && Names(TokenIn(message, decode).value, FieldsIn(message).value)
  {
  }

  /** The login the server's step machine is given. */
  function AsLogin(r: Outcome): Server.Login {
    match r
    case Accepted(_, _, name, zone) => Server.Accepted(name, zone)
    case Rejected(_) => Server.Refused
  }

  /** A login frame's fields: a name and the encoded token. */
  function LoginFor(name: string, pass: string): seq<string> {
    ["name=" + name, "pass=" + pass]
  }

  lemma KeyValueParts(key: string, value: string)
    requires key != "" && '=' !in key
    ensures var part := key + "=" + value; KeyValue(part) && Key(part) == key && ValueOf(part) == value
  {
    var part := key + "=" + value;
    assert forall i :: 0 <= i < |key| ==> part[i] == key[i];
    assert part[|key|] == '=' && Find(part, '=') == |key|;
    assert part[..|key|] == key && part[|key| + 1..] == value;
  }

  lemma LoginForFields(name: string, pass: string)
    ensures FieldsOf(LoginFor(name, pass)) == Some(map["name" := name, "pass" := pass])
  {
    KeyValueParts("name", name);
    KeyValueParts("pass", pass);
    assert "name=" == "name" + "=" && "pass=" == "pass" + "=";
    assert LoginFor(name, pass) == [] + ["name=" + name] + ["pass=" + pass];
    FieldsSnoc([], "name=" + name);
    FieldsSnoc([] + ["name=" + name], "pass=" + pass);
  }

  /** What the chat server relies on: an accepted name is the token's, is not empty and cannot
      break the ';'-separated group record; the clock is within the tolerance. */
  lemma AcceptedMeans(message: string, secret: string, now: int, decode: string -> Option<Token>)
    requires Verdict(message, secret, now, decode).Accepted?
    ensures var r, t := Verdict(message, secret, now, decode), TokenIn(message, decode);
      && t.Some? && TokenTimely(t.value, now) && t.value.verifies
      && r.expiresAt == t.value.exp.value && t.value.characterName == Present(r.characterName)
      && (r.isAdmin <==> t.value.roles.RoleList? && Present("chat_admin") in t.value.roles.entries)
    ensures var fields := FieldsIn(message);
      && fields.Some? && Verdict(message, secret, now, decode).zone == if "zone" in fields.value then fields.value["zone"] else ""
    ensures var login := AsLogin(Verdict(message, secret, now, decode));
      login.Accepted? && login.name != "" && ';' !in login.name && ';' !in login.zone
  {
    var parts := Lines(message[|LOGIN_PREFIX|..], ';');
    PiecesFree(message[|LOGIN_PREFIX|..], ';', 0);
    ValuesFree(parts, ';');
  }

  lemma FieldBeforePass(name: string)
    ensures ("name=" + name) + [';'] != "" && Last(Split(("name=" + name) + [';'], ';')) == ""
  {
    SplitLast(("name=" + name) + [';'], ';', 0);
  }

  /** Whatever the name, the last field of such a frame is the pass. */
  lemma PassIsLast(name: string, pass: string)
    requires ';' !in pass
    ensures var lines := Lines(Join(LoginFor(name, pass), ';'), ';'); lines != [] && Last(lines) == "pass=" + pass
  {
    var head, last := ("name=" + name) + [';'], "pass=" + pass;
    assert ';' !in "pass=" && last[0] == 'p';
    assert LoginFor(name, pass)[1..] == [last] && Join(LoginFor(name, pass), ';') == head + last;
    FieldBeforePass(name);
    SplitAppend(head, last, ';');
    SplitWhole(last, ';');
  }

  /** So the token looked at is the one given. */
  lemma PassRead(name: string, pass: string, decode: string -> Option<Token>)
    requires ';' !in pass && FieldsIn(LoginText(LoginFor(name, pass))).Some?
    ensures var fields := FieldsIn(LoginText(LoginFor(name, pass))).value; "pass" in fields && fields["pass"] == pass
  {
    var text := Join(LoginFor(name, pass), ';');
    assert LoginText(LoginFor(name, pass))[|LOGIN_PREFIX|..] == text;
    PassIsLast(name, pass);
    KeysListed(Lines(text, ';'), |Lines(text, ';')| - 1);
    KeyValueParts("pass", pass);
    assert "pass=" == "pass" + "=";
  }

  /** Which names can log in when their token is good: exactly the non-empty ones without ';'.
      Colons and line breaks are no obstacle. */
  lemma NamesThatLogIn(name: string, pass: string, t: Token, secret: string, now: int, decode: string -> Option<Token>)
    requires secret != "" && TokenGood(t, now) && t.characterName == Present(name)
    requires pass != "" && ';' !in pass && decode(pass) == Some(t)
    ensures var login := AsLogin(Verdict(LoginText(LoginFor(name, pass)), secret, now, decode));
      login == if name != "" && ';' !in name then Server.Login.Accepted(name, "") else Server.Login.Refused
  {
    var message := LoginText(LoginFor(name, pass));
    if name != "" && ';' !in name {
      assert ';' !in "name=" && ';' !in "pass=" && Plain(LoginFor(name, pass));
      LoginTextVerdict(LoginFor(name, pass), secret, now, decode);
      LoginForFields(name, pass);
    } else if Verdict(message, secret, now, decode).Accepted? {
      AcceptedMeans(message, secret, now, decode);
      PassRead(name, pass, decode);
    }
  }
}
