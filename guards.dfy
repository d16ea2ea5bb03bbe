/** The access decisions: `verifyjwt` (bearer token), `verifyAdmin` (stored role) and the
    patient check of GET /booking. Token verification is an oracle the caller supplies. */
module Guards {
  import opened Records
  import opened Users

  /** What a guard decides: go on with the decoded identity, answer with an error status,
      or fail without answering (the source dereferences a missing user record). */
  datatype Verdict = Proceed(claims: Claims) | Reject(status: nat, message: string) | Fault

  /** JavaScript's `s.split(sep)` for a one-character separator. */
  function Split(s: string, sep: char): (parts: seq<string>)
    ensures |parts| >= 1
    ensures forall i :: 0 <= i < |parts| ==> sep !in parts[i]
    ensures |parts| == 1 <==> sep !in s
    decreases |s|
  {
    if s == [] then [""]
    else if s[0] == sep then [""] + Split(s[1..], sep)
    else
      var rest := Split(s[1..], sep);
      [[s[0]] + rest[0]] + rest[1..]
  }

  /** `parts.join(sep)`, the inverse of Split. */
  function Join(parts: seq<string>, sep: char): string
    requires |parts| >= 1
    decreases |parts|
  {
    if |parts| == 1 then parts[0] else parts[0] + [sep] + Join(parts[1..], sep)
  }

  /** Splitting loses nothing: joining the parts gives the header back. */
  lemma {:induction false} JoinSplit(s: string, sep: char)
    ensures Join(Split(s, sep), sep) == s
    decreases |s|
  {
    if s != [] {
      JoinSplit(s[1..], sep);
      var rest := Split(s[1..], sep);
      if s[0] != sep {
        var parts := Split(s, sep);
        assert parts[0] == [s[0]] + rest[0] && parts[1..] == rest[1..];
        if |rest| > 1 {
          assert Join(rest, sep) == rest[0] + [sep] + Join(rest[1..], sep);
        }
      }
    }
  }

  lemma SplitHead(c: char, t: string, sep: char)
    ensures Split([c] + t, sep) ==
      if c == sep then [""] + Split(t, sep) else [[c] + Split(t, sep)[0]] + Split(t, sep)[1..]
  {
    assert ([c] + t)[1..] == t;
  }

  lemma ConsAppend(c: char, rest: string, t: string)
    ensures [c] + (rest + t) == ([c] + rest) + t
  {
  }

  /** A word without the separator at the front of a string is glued to the first part. */
  lemma {:induction false} SplitWord(w: string, t: string, sep: char)
    requires sep !in w
    ensures Split(w + t, sep) == [w + Split(t, sep)[0]] + Split(t, sep)[1..]
    decreases |w|
  {
    var parts := Split(t, sep);
    if w == [] {
      assert w + t == t;
      assert w + parts[0] == parts[0];
      assert [parts[0]] + parts[1..] == parts;
    } else {
      var c, rest := w[0], w[1..];
      assert w == [c] + rest;
      assert c != sep by {
        assert c in w;
      }
      assert sep !in rest by {
        assert forall x :: x in rest ==> x in w;
      }
      var u := rest + t;
      SplitWord(rest, t, sep);
      var su := Split(u, sep);
      assert su[0] == rest + parts[0] && su[1..] == parts[1..];
      ConsAppend(c, rest, t);
      ConsAppend(c, rest, parts[0]);
      SplitHead(c, u, sep);
    }
  }

  /** Splitting undoes joining parts that hold no separator. */
  lemma {:induction false} SplitJoin(parts: seq<string>, sep: char)
    requires |parts| >= 1
    requires forall i :: 0 <= i < |parts| ==> sep !in parts[i]
    ensures Split(Join(parts, sep), sep) == parts
    decreases |parts|
  {
    var p := parts[0];
    if |parts| == 1 {
      SplitWord(p, "", sep);
      assert p + "" == p;
    } else {
      var rest := Join(parts[1..], sep);
      SplitJoin(parts[1..], sep);
      assert Join(parts, sep) == p + ([sep] + rest);
      SplitHead(sep, rest, sep);
      SplitWord(p, [sep] + rest, sep);
      assert p + "" == p;
      assert parts == [p] + parts[1..];
    }
  }

  /** `authHeader.split(' ')[1]`: the second space-separated word, if there is one. */
  function BearerToken(header: string): (token: Option<string>)
    ensures token.Some? ==> ' ' !in token.value
    ensures token.None? <==> ' ' !in header
  {
    var parts := Split(header, ' ');
    if |parts| >= 2 then Some(parts[1]) else None
  }

  /** A header "<scheme> <token>", possibly followed by further space-separated words,
      yields exactly that token. */
  lemma BearerTokenOf(scheme: string, token: string, rest: string)
    requires ' ' !in scheme && ' ' !in token
    requires rest == [] || rest[0] == ' '
    ensures BearerToken(scheme + " " + token + rest) == Some(token)
  {
    var tail := token + rest;
    assert Split(rest, ' ')[0] == "" by {
      if rest != [] {
        assert rest == [' '] + rest[1..];
        SplitHead(' ', rest[1..], ' ');
      }
    }
    SplitWord(token, rest, ' ');
    assert token + "" == token;
    SplitHead(' ', tail, ' ');
    SplitWord(scheme, [' '] + tail, ' ');
    assert scheme + "" == scheme;
    assert scheme + " " + token + rest == scheme + ([' '] + tail);
  }

  /** `verifyjwt`: no (or an empty) header is 401; a token that is missing, empty or refused
      by `verify` is 403; otherwise go on with the claims it decodes to. */
  function VerifyJwt(header: Option<string>, verify: string -> Option<Claims>): (v: Verdict)
    ensures !v.Fault?
    ensures v == Reject(401, "UnAuthorizid access") <==> header.None? || header.value == ""
    ensures header.Some? && header.value != "" && !v.Proceed? ==> v == Reject(403, "Forbidden Access")
    ensures v.Proceed? <==>
      && header.Some? && header.value != ""
      && BearerToken(header.value).Some? && BearerToken(header.value).value != ""
      && verify(BearerToken(header.value).value).Some?
    ensures v.Proceed? ==> verify(BearerToken(header.value).value) == Some(v.claims)
  {
    if header.None? || header.value == "" then Reject(401, "UnAuthorizid access")
    else match BearerToken(header.value)
      case None => Reject(403, "Forbidden Access")
      case Some(token) =>
        if token == "" then Reject(403, "Forbidden Access")
        else match verify(token)
          case None => Reject(403, "Forbidden Access")
          case Some(claims) => Proceed(claims)
  }

  /** `verifyAdmin`: go on only when the requester's stored role is admin. */
  function VerifyAdmin(claims: Claims, users: seq<Doc>): (v: Verdict)
    ensures v.Proceed? <==> AdminStatus(users, claims.email) == Some(true)
    ensures v.Proceed? ==> v.claims == claims
    ensures v.Reject? <==> AdminStatus(users, claims.email) == Some(false)
    ensures v.Reject? ==> v == Reject(403, "forbidden")
    ensures v.Fault? <==> AdminStatus(users, claims.email).None?
  {
    match AdminStatus(users, claims.email)
    case None => Fault
    case Some(isAdmin) => if isAdmin then Proceed(claims) else Reject(403, "forbidden")
  }

  /** `verifyjwt` followed by `verifyAdmin`, as on every admin-gated route. */
  function AdminGate(header: Option<string>, verify: string -> Option<Claims>, users: seq<Doc>): (v: Verdict)
    ensures v.Proceed? ==> VerifyJwt(header, verify) == Proceed(v.claims) && AdminStatus(users, v.claims.email) == Some(true)
    ensures !VerifyJwt(header, verify).Proceed? ==> v == VerifyJwt(header, verify)
    ensures VerifyJwt(header, verify).Proceed? ==> v == VerifyAdmin(VerifyJwt(header, verify).claims, users)
  {
    match VerifyJwt(header, verify)
    case Proceed(claims) => VerifyAdmin(claims, users)
    case other => other
  }

  /** Admin-gated routes run only for a requester whose stored role is admin. */
  lemma AdminGateSound(header: Option<string>, verify: string -> Option<Claims>, users: seq<Doc>)
    ensures AdminGate(header, verify, users).Proceed? ==>
      var c := AdminGate(header, verify, users).claims;
      && VerifyJwt(header, verify) == Proceed(c)
      && exists j :: 0 <= j < |users| && HasEmail(users[j], c.email) &&
                     (forall i :: 0 <= i < j ==> !HasEmail(users[i], c.email)) && IsAdminDoc(users[j])
  {
  }

  /** A verified requester whose stored role is not admin gets 403, whatever the request carries. */
  lemma NonAdminForbidden(header: Option<string>, verify: string -> Option<Claims>, users: seq<Doc>, c: Claims)
    requires VerifyJwt(header, verify) == Proceed(c)
    requires FindEmail(users, c.email).Some? && !IsAdminDoc(users[FindEmail(users, c.email).value])
    ensures AdminGate(header, verify, users) == Reject(403, "forbidden")
  {
  }

  /** The check of GET /booking: the queried patient must be the token's own email. */
  function PatientGate(patient: Option<string>, claims: Claims): (v: Verdict)
    ensures v.Proceed? <==> patient == Some(claims.email)
    ensures !v.Proceed? ==> v == Reject(403, "forbidden access")
  {
    if patient == Some(claims.email) then Proceed(claims) else Reject(403, "forbidden access")
  }
}
