/**
 The source-profile document: one entry's validation, the whole document's refusal on
 its first defect, and the digest that stands for a native scope.
 */
module SourceProfiles {
  import opened Options
  import J = JsonText

  /** A parsed JSON document. */
  datatype Value =
    | Nil
    | Flag(flag: bool)
    | Num(number: real)
    | Text(text: string)
    | List(items: seq<Value>)
    | Object(fields: map<string, Value>)

  datatype Origin = OutlookMail | SharepointDocuments | TeamsMessages | PublicWeb | Synthetic
  datatype Ceiling = ObservedSource | AuthoritativeSource
  datatype Proof = Unproven | Proven | Revoked

  datatype Spec =
    Spec(client: string, origin: Origin, digest: string, ceiling: Ceiling, direct: bool, proof: Proof)

  datatype Reason =
    | NotAnObject | WrongKeys | OneDrive | NotAToken(field: string) | UnknownToken(field: string)
    | BadClient | UnboundClient | ScopeAndDigest | BadScope | BadDigest
    | DirectNotBoolean | DirectUnproven
    | BadDocument | BadVersion | ProfilesNotAList
    | At(index: nat, reason: Reason) | BindingTwice(index: nat)

  datatype Result<T> = Ok(value: T) | Err(reason: Reason)

  // ----- the closed vocabularies ---------------------------------------------------------------------

  function OriginName(o: Origin): string {
    match o
    case OutlookMail => "outlook_mail"
    case SharepointDocuments => "sharepoint_documents"
    case TeamsMessages => "teams_messages"
    case PublicWeb => "public_web"
    case Synthetic => "synthetic"
  }

  function CeilingName(c: Ceiling): string {
    match c
    case ObservedSource => "observed_source"
    case AuthoritativeSource => "authoritative_source"
  }

  function ProofName(p: Proof): string {
    match p
    case Unproven => "unproven"
    case Proven => "proven"
    case Revoked => "revoked"
  }

  function OriginOf(s: string): (o: Option<Origin>)
    ensures o.Some? ==> OriginName(o.value) == s
    ensures forall p :: OriginName(p) == s ==> o == Some(p)
  {
    if s == "outlook_mail" then Some(OutlookMail)
    else if s == "sharepoint_documents" then Some(SharepointDocuments)
    else if s == "teams_messages" then Some(TeamsMessages)
    else if s == "public_web" then Some(PublicWeb)
    else if s == "synthetic" then Some(Synthetic)
    else None
  }

  function CeilingOf(s: string): (c: Option<Ceiling>)
    ensures c.Some? ==> CeilingName(c.value) == s
    ensures forall p :: CeilingName(p) == s ==> c == Some(p)
  {
    if s == "observed_source" then Some(ObservedSource)
    else if s == "authoritative_source" then Some(AuthoritativeSource)
    else None
  }

  function ProofOf(s: string): (r: Option<Proof>)
    ensures r.Some? ==> ProofName(r.value) == s
    ensures forall p :: ProofName(p) == s ==> r == Some(p)
  {
    if s == "unproven" then Some(Unproven)
    else if s == "proven" then Some(Proven)
    else if s == "revoked" then Some(Revoked)
    else None
  }

  // ----- fields ------------------------------------------------------------------------------------------

  const VERSION := "version"
  const PROFILES := "profiles"
  const CLIENT := "authenticated_client_id"
  const ORIGIN := "origin_system"
  const CEILING := "authority_ceiling"
  const SCOPE := "scope"
  const DIGEST := "scope_digest"
  const DIRECT := "direct_admission_enabled"
  const PROOF := "read_only_proof_state"

  const REQUIRED := {CLIENT, ORIGIN, CEILING}
  const OPTIONAL := {SCOPE, DIGEST, DIRECT, PROOF}

  function Lower(c: char): char {
    if 'A' <= c <= 'Z' then c - 'A' + 'a' else c
  }

  /** Lower case, without underscores and hyphens. */
  function Squeezed(s: string): string {
    if s == [] then []
    else (if s[0] == '_' || s[0] == '-' then [] else [Lower(s[0])]) + Squeezed(s[1..])
  }

  predicate Contains(s: string, part: string) {
    part <= s || (s != [] && Contains(s[1..], part))
  }

  predicate NamesOneDrive(s: string) {
    Contains(Squeezed(s), "onedrive")
  }

  predicate ClientText(s: string) {
    1 <= |s| <= 256 && forall i | 0 <= i < |s| :: s[i] as int >= 0x20 && s[i] as int != 0x7f
  }

  predicate ScopeText(s: string) {
    1 <= |s| <= 1024
  }

  predicate HexChar(c: char) {
    '0' <= c <= '9' || 'a' <= c <= 'f'
  }

  predicate DigestText(s: string) {
    |s| == 64 && forall i | 0 <= i < |s| :: HexChar(s[i])
  }

  // ----- the scope digest ----------------------------------------------------------------------------------

  const HEAD := "{\"origin_system\":\""
  const MIDDLE := ",\"scope\":\""
  const TAIL := ",\"v\":1}"

  /** Sorted keys, no spaces: what the digest of a native scope is taken of. */
  function Canonical(o: Origin, scope: string): string {
    HEAD + (J.EscapeAll(OriginName(o)) + "\"" + (MIDDLE + (J.EscapeAll(scope) + "\"" + TAIL)))
  }

  /** `sha256` gives the hexadecimal digest of a text. */
  function ScopeDigest(sha256: string -> string, o: Origin, scope: string): string {
    sha256(Canonical(o, scope))
  }

  lemma StringReadsAfter(head: string, text: string, after: string)
    ensures J.ReadChars((head + (J.EscapeAll(text) + "\"" + after))[|head|..]) == Some((text, after))
  {
    assert (head + (J.EscapeAll(text) + "\"" + after))[|head|..] == J.EscapeAll(text) + "\"" + after;
    J.EscapedTextReads(text, after);
  }

  /** The canonical text can be read back, so it names one origin and one scope. */
  lemma CanonicalIsInjective(o: Origin, scope: string, p: Origin, other: string)
    requires Canonical(o, scope) == Canonical(p, other)
    ensures o == p && scope == other
  {
    var after, afterOther := J.EscapeAll(scope) + "\"" + TAIL, J.EscapeAll(other) + "\"" + TAIL;
    StringReadsAfter(HEAD, OriginName(o), MIDDLE + after);
    StringReadsAfter(HEAD, OriginName(p), MIDDLE + afterOther);
    assert OriginOf(OriginName(o)) == Some(o) && OriginOf(OriginName(p)) == Some(p);
    StringReadsAfter(MIDDLE, scope, TAIL);
    StringReadsAfter(MIDDLE, other, TAIL);
  }

  /** With a digest that tells texts apart, two native scopes share one exactly when they are the same scope. */
  lemma ScopesShareADigestIff(sha256: string -> string, o: Origin, scope: string, p: Origin, other: string)
    requires forall a, b | sha256(a) == sha256(b) :: a == b
    ensures ScopeDigest(sha256, o, scope) == ScopeDigest(sha256, p, other) <==> o == p && scope == other
  {
    if ScopeDigest(sha256, o, scope) == ScopeDigest(sha256, p, other) {
      CanonicalIsInjective(o, scope, p, other);
    }
  }

  // ----- one entry -----------------------------------------------------------------------------------------

  function ParseOrigin(v: Value): Result<Origin> {
    if v.Text? && NamesOneDrive(v.text) then Err(OneDrive)
    else if !v.Text? then Err(NotAToken(ORIGIN))
    else
      var o := OriginOf(v.text);
      if o.None? then Err(UnknownToken(ORIGIN)) else Ok(o.value)
  }

  function ParseCeiling(v: Value): Result<Ceiling> {
    if !v.Text? then Err(NotAToken(CEILING))
    else
      var c := CeilingOf(v.text);
      if c.None? then Err(UnknownToken(CEILING)) else Ok(c.value)
  }

  function ParseProof(v: Value): Result<Proof> {
    if !v.Text? then Err(NotAToken(PROOF))
    else
      var p := ProofOf(v.text);
      if p.None? then Err(UnknownToken(PROOF)) else Ok(p.value)
  }

  function ParseClient(v: Value, clients: set<string>): Result<string> {
    if !v.Text? || !ClientText(v.text) then Err(BadClient)
    else if v.text !in clients then Err(UnboundClient)
    else Ok(v.text)
  }

  function ParseDigest(fields: map<string, Value>, o: Origin, sha256: string -> string): Result<string> {
    if (SCOPE in fields) == (DIGEST in fields) then Err(ScopeAndDigest)
    else if SCOPE in fields then
      var v := fields[SCOPE];
      if !v.Text? || !ScopeText(v.text) then Err(BadScope) else Ok(ScopeDigest(sha256, o, v.text))
    else
      var v := fields[DIGEST];
      if !v.Text? || !DigestText(v.text) then Err(BadDigest) else Ok(v.text)
  }

  function Get(fields: map<string, Value>, name: string, otherwise: Value): Value {
    if name in fields then fields[name] else otherwise
  }

  /** `parse_profile`: the branches in the order that decides which defect is reported. */
  function ParseProfile(entry: Value, clients: set<string>, sha256: string -> string): Result<Spec> {
    if !entry.Object? then Err(NotAnObject)
    else if !(REQUIRED <= entry.fields.Keys <= REQUIRED + OPTIONAL) then Err(WrongKeys)
    else
      var origin := ParseOrigin(entry.fields[ORIGIN]);
      if origin.Err? then Err(origin.reason)
      else
        var client := ParseClient(entry.fields[CLIENT], clients);
        if client.Err? then Err(client.reason)
        else
          var digest := ParseDigest(entry.fields, origin.value, sha256);
          if digest.Err? then Err(digest.reason)
          else
            var ceiling := ParseCeiling(entry.fields[CEILING]);
            if ceiling.Err? then Err(ceiling.reason)
            else
              var proof := ParseProof(Get(entry.fields, PROOF, Text(ProofName(Unproven))));
              if proof.Err? then Err(proof.reason)
              else
                var direct := Get(entry.fields, DIRECT, Flag(false));
                if !direct.Flag? then Err(DirectNotBoolean)
                else if direct.flag && (!proof.value.Proven? || !ceiling.value.AuthoritativeSource?) then Err(DirectUnproven)
                else Ok(Spec(client.value, origin.value, digest.value, ceiling.value, direct.flag, proof.value))
  }

  /** What a profile may be, whichever document it came from. */
  predicate ValidSpec(s: Spec, clients: set<string>) {
    && ClientText(s.client) && s.client in clients
    && DigestText(s.digest)
    && (s.direct ==> s.proof.Proven? && s.ceiling.AuthoritativeSource?)
  }

  ghost predicate HexDigests(sha256: string -> string) {
    forall text :: DigestText(sha256(text))
  }

  /** Whatever is accepted is valid; direct admission needs proof and an authoritative source. */
  lemma AcceptedIsValid(entry: Value, clients: set<string>, sha256: string -> string)
    requires HexDigests(sha256)
    requires ParseProfile(entry, clients, sha256).Ok?
    ensures ValidSpec(ParseProfile(entry, clients, sha256).value, clients)
  {
    var origin := ParseOrigin(entry.fields[ORIGIN]);
    var digest := ParseDigest(entry.fields, origin.value, sha256);
    assert digest.Ok? && DigestText(digest.value);
  }

  /** The field, if there, is one of the tokens `known` knows. */
  predicate TokenIn<T>(fields: map<string, Value>, name: string, known: string -> Option<T>) {
    name in fields && fields[name].Text? && known(fields[name].text).Some?
  }

  const DELETE: char := 0x7f as char

  lemma ClientTextIff(s: string)
    ensures ClientText(s) <==> 0 < |s| <= 256 && forall c | c in s :: c >= ' ' && c != DELETE
  {
    assert forall i | 0 <= i < |s| :: s[i] in s;
  }

  lemma DigestTextIff(s: string)
    ensures DigestText(s) <==> |s| == 64 && forall c | c in s :: c in "0123456789abcdef"
  {
    assert forall i | 0 <= i < |s| :: s[i] in s;
    forall c: char ensures HexChar(c) <==> c in "0123456789abcdef" {
      HexCharIff(c);
    }
  }

  lemma HexCharIff(c: char)
    ensures HexChar(c) <==> c in "0123456789abcdef"
  {
    var hex := "0123456789abcdef";
    if '0' <= c <= '9' {
      assert hex[c as int - '0' as int] == c;
    } else if 'a' <= c <= 'f' {
      assert hex[10 + (c as int - 'a' as int)] == c;
    }
  }

  /** What an entry must be, field by field and in no order. */
  ghost predicate Acceptable(entry: Value, clients: set<string>) {
    && entry.Object?
    && var fields := entry.fields;
    && (forall name | name in fields :: name in REQUIRED || name in OPTIONAL)
    && TokenIn(fields, ORIGIN, OriginOf)
    && TokenIn(fields, CEILING, CeilingOf)
    && (PROOF in fields ==> TokenIn(fields, PROOF, ProofOf))
    && CLIENT in fields && fields[CLIENT].Text? && fields[CLIENT].text in clients
    && 0 < |fields[CLIENT].text| <= 256 && (forall c | c in fields[CLIENT].text :: c >= ' ' && c != DELETE)
    && (SCOPE in fields <==> DIGEST !in fields)
    && (SCOPE in fields ==> fields[SCOPE].Text? && 0 < |fields[SCOPE].text| <= 1024)
    && (DIGEST in fields ==>
          && fields[DIGEST].Text? && |fields[DIGEST].text| == 64
          && forall c | c in fields[DIGEST].text :: c in "0123456789abcdef")
    && (DIRECT in fields ==> fields[DIRECT].Flag?)
    && (DIRECT in fields && fields[DIRECT].flag ==>
          fields[CEILING] == Text(CeilingName(AuthoritativeSource)) && PROOF in fields && fields[PROOF] == Text(ProofName(Proven)))
  }

  /** The branches accept exactly the entries whose every field is in order; a known origin never reads as OneDrive. */
  lemma AcceptedIff(entry: Value, clients: set<string>, sha256: string -> string)
    ensures ParseProfile(entry, clients, sha256).Ok? <==> Acceptable(entry, clients)
  {
    if entry.Object? {
      var fields := entry.fields;
      assert REQUIRED <= fields.Keys <= REQUIRED + OPTIONAL <==>
             (CLIENT in fields && ORIGIN in fields && CEILING in fields
              && forall name | name in fields :: name in REQUIRED || name in OPTIONAL);
      if ORIGIN in fields && fields[ORIGIN].Text? {
        OriginAcceptedIff(fields[ORIGIN].text);
      }
      if CLIENT in fields && fields[CLIENT].Text? {
        ClientTextIff(fields[CLIENT].text);
      }
      if DIGEST in fields && fields[DIGEST].Text? {
        DigestTextIff(fields[DIGEST].text);
      }
      CeilingNamesDiffer();
    }
  }

  lemma OriginAcceptedIff(s: string)
    ensures ParseOrigin(Text(s)).Ok? <==> OriginOf(s).Some?
  {
    if OriginOf(s).Some? {
      OriginsAreNotOneDrive(OriginOf(s).value);
    }
  }

  lemma CeilingNamesDiffer()
    ensures forall s | CeilingOf(s).Some? :: CeilingOf(s).value.AuthoritativeSource? <==> s == CeilingName(AuthoritativeSource)
    ensures forall s | ProofOf(s).Some? :: ProofOf(s).value.Proven? <==> s == ProofName(Proven)
    ensures ProofName(Unproven) != ProofName(Proven)
  {
    assert |ProofName(Unproven)| == 8 && |ProofName(Proven)| == 6;
  }

  /** Field by field, what an entry's fields say and what they leave to its defaults, is profile `s`. */
  ghost predicate States(fields: map<string, Value>, s: Spec, sha256: string -> string) {
    && CLIENT in fields && fields[CLIENT] == Text(s.client)
    && ORIGIN in fields && fields[ORIGIN] == Text(OriginName(s.origin))
    && CEILING in fields && fields[CEILING] == Text(CeilingName(s.ceiling))
    && (if PROOF in fields then fields[PROOF] == Text(ProofName(s.proof)) else s.proof == Unproven)
    && (if DIRECT in fields then fields[DIRECT] == Flag(s.direct) else s.direct == false)
    && (if SCOPE in fields
        then fields[SCOPE].Text? && s.digest == sha256(Canonical(s.origin, fields[SCOPE].text))
        else DIGEST in fields && fields[DIGEST] == Text(s.digest))
  }

  /** An accepted entry becomes the profile it states: its own client, origin, ceiling and scope, and the two defaults. */
  lemma AcceptedStates(entry: Value, clients: set<string>, sha256: string -> string)
    requires ParseProfile(entry, clients, sha256).Ok?
    ensures entry.Object? && States(entry.fields, ParseProfile(entry, clients, sha256).value, sha256)
  {
  }

  /** Fields state one profile at most. */
  lemma StatedOnce(fields: map<string, Value>, s: Spec, q: Spec, sha256: string -> string)
    requires States(fields, s, sha256) && States(fields, q, sha256)
    ensures s == q
  {
    assert OriginOf(OriginName(s.origin)) == Some(s.origin) && OriginOf(OriginName(q.origin)) == Some(q.origin);
    assert CeilingOf(CeilingName(s.ceiling)) == Some(s.ceiling) && CeilingOf(CeilingName(q.ceiling)) == Some(q.ceiling);
    assert ProofOf(ProofName(s.proof)) == Some(s.proof) && ProofOf(ProofName(q.proof)) == Some(q.proof);
  }

  /** Parsing gives profile `s` exactly when the entry is acceptable and states `s`. */
  lemma ParsesIff(entry: Value, s: Spec, clients: set<string>, sha256: string -> string)
    ensures ParseProfile(entry, clients, sha256) == Ok(s)
            <==> Acceptable(entry, clients) && States(entry.fields, s, sha256)
  {
    AcceptedIff(entry, clients, sha256);
    if ParseProfile(entry, clients, sha256).Ok? {
      AcceptedStates(entry, clients, sha256);
      if States(entry.fields, s, sha256) {
        StatedOnce(entry.fields, s, ParseProfile(entry, clients, sha256).value, sha256);
      }
    }
  }

  // ----- which defect is reported -------------------------------------------------------------------------

  /** What is wrong with an entry, each defect by itself. */
  ghost predicate HasDefect(entry: Value, clients: set<string>, defect: Reason) {
    if !entry.Object? then defect == NotAnObject
    else
      var fields := entry.fields;
      match defect
      case WrongKeys => (exists name | name in REQUIRED :: name !in fields) || (exists name | name in fields :: name !in REQUIRED + OPTIONAL)
      case OneDrive => ORIGIN in fields && fields[ORIGIN].Text? && NamesOneDrive(fields[ORIGIN].text)
      case NotAToken(name) => name in {ORIGIN, CEILING, PROOF} && name in fields && !fields[name].Text?
      case UnknownToken(name) =>
        && name in {ORIGIN, CEILING, PROOF} && name in fields && fields[name].Text?
        && (name == ORIGIN ==> forall o :: OriginName(o) != fields[name].text)
        && (name == CEILING ==> forall c :: CeilingName(c) != fields[name].text)
        && (name == PROOF ==> forall p :: ProofName(p) != fields[name].text)
      case BadClient => CLIENT in fields && !(fields[CLIENT].Text? && ClientText(fields[CLIENT].text))
      case UnboundClient => CLIENT in fields && fields[CLIENT].Text? && fields[CLIENT].text !in clients
      case ScopeAndDigest => SCOPE in fields <==> DIGEST in fields
      case BadScope => SCOPE in fields && !(fields[SCOPE].Text? && 1 <= |fields[SCOPE].text| <= 1024)
      case BadDigest => DIGEST in fields && !(fields[DIGEST].Text? && DigestText(fields[DIGEST].text))
      case DirectNotBoolean => DIRECT in fields && !fields[DIRECT].Flag?
      case DirectUnproven =>
        && DIRECT in fields && fields[DIRECT] == Flag(true)
        && !(PROOF in fields && fields[PROOF] == Text("proven")
             && CEILING in fields && fields[CEILING] == Text("authoritative_source"))
      case _ => false
  }

  /** Where a defect comes in the order of the checks. */
  function Place(defect: Reason): nat {
    match defect
    case NotAnObject => 0
    case WrongKeys => 1
    case OneDrive => 2
    case NotAToken(name) => if name == ORIGIN then 3 else if name == CEILING then 10 else 12
    case UnknownToken(name) => if name == ORIGIN then 4 else if name == CEILING then 11 else 13
    case BadClient => 5
    case UnboundClient => 6
    case ScopeAndDigest => 7
    case BadScope => 8
    case BadDigest => 9
    case DirectNotBoolean => 14
    case DirectUnproven => 15
    case _ => 16
  }

  lemma TokensKnownIff(text: string)
    ensures OriginOf(text).None? <==> forall o :: OriginName(o) != text
    ensures CeilingOf(text).None? <==> forall c :: CeilingName(c) != text
    ensures ProofOf(text).None? <==> forall p :: ProofName(p) != text
  {
  }

  lemma KeysIff(fields: map<string, Value>)
    ensures REQUIRED <= fields.Keys <= REQUIRED + OPTIONAL
            <==> CLIENT in fields && ORIGIN in fields && CEILING in fields
                 && forall name | name in fields :: name in REQUIRED + OPTIONAL
  {
  }

  lemma OriginRefused(entry: Value, clients: set<string>)
    requires entry.Object? && ORIGIN in entry.fields && ParseOrigin(entry.fields[ORIGIN]).Err?
    ensures HasDefect(entry, clients, ParseOrigin(entry.fields[ORIGIN]).reason)
  {
    FieldNamesDiffer();
    if entry.fields[ORIGIN].Text? {
      TokensKnownIff(entry.fields[ORIGIN].text);
    }
  }

  lemma ScopeRefused(entry: Value, clients: set<string>, o: Origin, sha256: string -> string)
    requires entry.Object? && ParseDigest(entry.fields, o, sha256).Err?
    ensures HasDefect(entry, clients, ParseDigest(entry.fields, o, sha256).reason)
  {
  }

  lemma CeilingRefused(entry: Value, clients: set<string>)
    requires entry.Object? && CEILING in entry.fields && ParseCeiling(entry.fields[CEILING]).Err?
    ensures HasDefect(entry, clients, ParseCeiling(entry.fields[CEILING]).reason)
  {
    FieldNamesDiffer();
    if entry.fields[CEILING].Text? {
      TokensKnownIff(entry.fields[CEILING].text);
    }
  }

  lemma ProofRefused(entry: Value, clients: set<string>)
    requires entry.Object? && PROOF in entry.fields && ParseProof(entry.fields[PROOF]).Err?
    ensures HasDefect(entry, clients, ParseProof(entry.fields[PROOF]).reason)
  {
    FieldNamesDiffer();
    if entry.fields[PROOF].Text? {
      TokensKnownIff(entry.fields[PROOF].text);
    }
  }

  lemma UnprovenDirectRefused(entry: Value, clients: set<string>, c: Ceiling, p: Proof)
    requires entry.Object? && DIRECT in entry.fields && entry.fields[DIRECT] == Flag(true)
    requires CEILING in entry.fields && entry.fields[CEILING] == Text(CeilingName(c))
    requires Get(entry.fields, PROOF, Text(ProofName(Unproven))) == Text(ProofName(p))
    requires p != Proven || c != AuthoritativeSource
    ensures HasDefect(entry, clients, DirectUnproven)
  {
    assert ProofOf(ProofName(p)) == Some(p) && CeilingOf(CeilingName(c)) == Some(c);
  }

  lemma ReportedIsADefect(entry: Value, clients: set<string>, sha256: string -> string)
    requires ParseProfile(entry, clients, sha256).Err?
    ensures HasDefect(entry, clients, ParseProfile(entry, clients, sha256).reason)
  {
    if entry.Object? {
      var fields := entry.fields;
      KeysIff(fields);
      if REQUIRED <= fields.Keys <= REQUIRED + OPTIONAL {
        var origin := ParseOrigin(fields[ORIGIN]);
        if origin.Err? {
          OriginRefused(entry, clients);
        } else if ParseClient(fields[CLIENT], clients).Ok? {
          if ParseDigest(fields, origin.value, sha256).Err? {
            ScopeRefused(entry, clients, origin.value, sha256);
          } else {
            TailRefused(entry, clients, sha256);
          }
        }
      }
    }
  }

  lemma TailRefused(entry: Value, clients: set<string>, sha256: string -> string)
    requires entry.Object? && REQUIRED <= entry.fields.Keys <= REQUIRED + OPTIONAL
    requires ParseOrigin(entry.fields[ORIGIN]).Ok? && ParseClient(entry.fields[CLIENT], clients).Ok?
    requires ParseDigest(entry.fields, ParseOrigin(entry.fields[ORIGIN]).value, sha256).Ok?
    requires ParseProfile(entry, clients, sha256).Err?
    ensures HasDefect(entry, clients, ParseProfile(entry, clients, sha256).reason)
  {
    var fields := entry.fields;
    var ceiling, proof := ParseCeiling(fields[CEILING]), ParseProof(Get(fields, PROOF, Text(ProofName(Unproven))));
    if ceiling.Err? {
      CeilingRefused(entry, clients);
    } else if proof.Err? {
      assert ProofOf(ProofName(Unproven)) == Some(Unproven);
      ProofRefused(entry, clients);
    } else if Get(fields, DIRECT, Flag(false)) == Flag(true) {
      UnprovenDirectRefused(entry, clients, ceiling.value, proof.value);
    }
  }

  lemma NoneComesBefore(entry: Value, clients: set<string>, sha256: string -> string, other: Reason)
    requires ParseProfile(entry, clients, sha256).Err? && HasDefect(entry, clients, other)
    ensures Place(ParseProfile(entry, clients, sha256).reason) <= Place(other)
  {
    if entry.Object? {
      var fields := entry.fields;
      KeysIff(fields);
      FieldNamesDiffer();
      if other.UnknownToken? {
        TokensKnownIff(fields[other.field].text);
      }
    }
  }

  /** A refused entry has the defect reported, and none that comes before it in the order of the checks. */
  lemma FirstDefectIsReported(entry: Value, clients: set<string>, sha256: string -> string, other: Reason)
    requires ParseProfile(entry, clients, sha256).Err?
    ensures HasDefect(entry, clients, ParseProfile(entry, clients, sha256).reason)
    ensures HasDefect(entry, clients, other) ==> Place(ParseProfile(entry, clients, sha256).reason) <= Place(other)
  {
    ReportedIsADefect(entry, clients, sha256);
    if HasDefect(entry, clients, other) {
      NoneComesBefore(entry, clients, sha256, other);
    }
  }

  // ----- OneDrive, however it is spelled -----------------------------------------------------------------------

  /** One character at a time: separators vanish, capitals become small, anything else stays. */
  lemma SqueezedCharacter(c: char)
    ensures Squeezed([c]) == if c in "_-" then "" else if 'A' <= c <= 'Z' then [c + 32 as char] else [c]
  {
    assert [c][1..] == "";
  }

  lemma {:induction false} SqueezedDistributes(a: string, b: string)
    ensures Squeezed(a + b) == Squeezed(a) + Squeezed(b)
  {
    if a == [] {
      assert a + b == b;
    } else {
      assert (a + b)[0] == a[0] && (a + b)[1..] == a[1..] + b;
      SqueezedDistributes(a[1..], b);
    }
  }

  lemma {:induction false} ContainsIff(s: string, part: string)
    ensures Contains(s, part) <==> exists before, after :: s == before + part + after
  {
    forall before, after | s == before + part + after ensures |part| <= |s| {
    }
    if part <= s {
      assert s == [] + part + s[|part|..];
    } else if s != [] {
      ContainsIff(s[1..], part);
      forall before, after | s == before + part + after ensures Contains(s[1..], part) {
        assert before == [] ==> part <= s;
        assert s[1..] == before[1..] + part + after;
      }
      if before, after :| s[1..] == before + part + after {
        assert s == ([s[0]] + before) + part + after;
      }
    }
  }

  /** Upper case or not and whatever separators are strewn in, an origin with OneDrive in it is refused as that. */
  lemma OneDriveIsRefused(entry: Value, clients: set<string>, sha256: string -> string, before: string, name: string, after: string)
    requires entry.Object? && REQUIRED <= entry.fields.Keys <= REQUIRED + OPTIONAL
    requires entry.fields[ORIGIN] == Text(before + name + after) && Squeezed(name) == "onedrive"
    ensures ParseProfile(entry, clients, sha256) == Err(OneDrive)
  {
    SqueezedDistributes(before + name, after);
    SqueezedDistributes(before, name);
    ContainsIff(Squeezed(before + name + after), "onedrive");
  }

  /** The entry that states a profile outright, its scope by digest. */
  function Render(s: Spec): Value {
    Object(map[
      CLIENT := Text(s.client),
      ORIGIN := Text(OriginName(s.origin)),
      DIGEST := Text(s.digest),
      CEILING := Text(CeilingName(s.ceiling)),
      DIRECT := Flag(s.direct),
      PROOF := Text(ProofName(s.proof))])
  }

  lemma FieldNamesDiffer()
    ensures CLIENT != ORIGIN && CLIENT != DIGEST && CLIENT != CEILING && CLIENT != DIRECT && CLIENT != PROOF
    ensures ORIGIN != DIGEST && ORIGIN != CEILING && ORIGIN != DIRECT && ORIGIN != PROOF && SCOPE != CLIENT
    ensures DIGEST != CEILING && DIGEST != DIRECT && DIGEST != PROOF && SCOPE != ORIGIN && SCOPE != DIGEST
    ensures CEILING != DIRECT && CEILING != PROOF && DIRECT != PROOF && SCOPE != CEILING && SCOPE != DIRECT && SCOPE != PROOF
  {
    assert |CLIENT| == 23 && |ORIGIN| == 13 && |DIGEST| == 12 && |CEILING| == 17 && |DIRECT| == 24 && |PROOF| == 21 && |SCOPE| == 5;
  }

  lemma {:induction false} PartsAreInside(s: string, part: string, c: char)
    requires Contains(s, part) && c in part
    ensures c in s
  {
    if !(part <= s) {
      PartsAreInside(s[1..], part, c);
    }
  }

  lemma {:induction false} SqueezingAddsNothing(s: string)
    ensures 'v' in Squeezed(s) ==> 'v' in s || 'V' in s
  {
    if s != [] {
      SqueezingAddsNothing(s[1..]);
    }
  }

  lemma OriginsHaveNoV(o: Origin)
    ensures 'v' !in OriginName(o) && 'V' !in OriginName(o)
  {
  }

  lemma OneDriveHasAV(s: string)
    requires Contains(s, "onedrive")
    ensures 'v' in s
  {
    assert "onedrive"[6] == 'v';
    PartsAreInside(s, "onedrive", 'v');
  }

  lemma OriginsAreNotOneDrive(o: Origin)
    ensures !NamesOneDrive(OriginName(o))
  {
    OriginsHaveNoV(o);
    SqueezingAddsNothing(OriginName(o));
    if NamesOneDrive(OriginName(o)) {
      OneDriveHasAV(Squeezed(OriginName(o)));
    }
  }

  /** Every valid profile can be stated, and stating it is understood as that profile. */
  lemma RenderParsesBack(s: Spec, clients: set<string>, sha256: string -> string)
    requires ValidSpec(s, clients)
    ensures ParseProfile(Render(s), clients, sha256) == Ok(s)
  {
    FieldNamesDiffer();
    OriginsAreNotOneDrive(s.origin);
    var fields := Render(s).fields;
    assert fields.Keys == REQUIRED + {DIGEST, DIRECT, PROOF};
    assert fields[ORIGIN] == Text(OriginName(s.origin)) && fields[CLIENT] == Text(s.client);
    assert fields[DIGEST] == Text(s.digest) && fields[CEILING] == Text(CeilingName(s.ceiling));
    assert fields[DIRECT] == Flag(s.direct) && fields[PROOF] == Text(ProofName(s.proof));
    assert SCOPE !in fields;
  }

  /** The entry that states a profile outright, its scope natively. */
  function RenderScoped(s: Spec, scope: string): Value {
    Object(map[
      CLIENT := Text(s.client),
      ORIGIN := Text(OriginName(s.origin)),
      SCOPE := Text(scope),
      CEILING := Text(CeilingName(s.ceiling)),
      DIRECT := Flag(s.direct),
      PROOF := Text(ProofName(s.proof))])
  }

  /** Stating a profile by its native scope is understood as the profile with that scope's digest. */
  lemma RenderScopedParsesBack(s: Spec, scope: string, clients: set<string>, sha256: string -> string)
    requires ValidSpec(s, clients) && 1 <= |scope| <= 1024
    ensures ParseProfile(RenderScoped(s, scope), clients, sha256) == Ok(s.(digest := sha256(Canonical(s.origin, scope))))
  {
    FieldNamesDiffer();
    OriginsAreNotOneDrive(s.origin);
    var fields := RenderScoped(s, scope).fields;
    assert fields.Keys == REQUIRED + {SCOPE, DIRECT, PROOF};
    assert fields[ORIGIN] == Text(OriginName(s.origin)) && fields[CLIENT] == Text(s.client);
    assert fields[SCOPE] == Text(scope) && fields[CEILING] == Text(CeilingName(s.ceiling));
    assert fields[DIRECT] == Flag(s.direct) && fields[PROOF] == Text(ProofName(s.proof));
    assert DIGEST !in fields;
  }

  // ----- the whole document -----------------------------------------------------------------------------------

  datatype Binding = Binding(client: string, origin: string, digest: string)

  function BindingOf(s: Spec): Binding {
    Binding(s.client, OriginName(s.origin), s.digest)
  }

  /** Entries that state native scopes bind one thing exactly when client, origin and scope agree. */
  lemma ScopedBindingsAgreeIff(e: Value, f: Value, s: Spec, q: Spec, clients: set<string>, sha256: string -> string)
    requires forall a, b | sha256(a) == sha256(b) :: a == b
    requires ParseProfile(e, clients, sha256) == Ok(s) && ParseProfile(f, clients, sha256) == Ok(q)
    requires SCOPE in e.fields && SCOPE in f.fields
    ensures BindingOf(s) == BindingOf(q)
            <==> && e.fields[CLIENT] == f.fields[CLIENT] && e.fields[ORIGIN] == f.fields[ORIGIN]
                 && e.fields[SCOPE] == f.fields[SCOPE]
  {
    AcceptedStates(e, clients, sha256);
    AcceptedStates(f, clients, sha256);
    assert OriginOf(OriginName(s.origin)) == Some(s.origin) && OriginOf(OriginName(q.origin)) == Some(q.origin);
    ScopesShareADigestIff(sha256, s.origin, e.fields[SCOPE].text, q.origin, f.fields[SCOPE].text);
  }

  predicate DocumentShape(document: Value) {
    && document.Object? && document.fields.Keys == {VERSION, PROFILES}
    && document.fields[VERSION] == Num(1.0)
    && document.fields[PROFILES].List?
  }

  /** Entry `i` is accepted by itself and binds what no entry before it binds. */
  predicate EntryStands(entries: seq<Value>, i: nat, clients: set<string>, sha256: string -> string)
    requires i < |entries|
  {
    var r := ParseProfile(entries[i], clients, sha256);
    && r.Ok?
    && forall k | 0 <= k < i && ParseProfile(entries[k], clients, sha256).Ok? ::
         BindingOf(ParseProfile(entries[k], clients, sha256).value) != BindingOf(r.value)
  }

  predicate AllStand(entries: seq<Value>, clients: set<string>, sha256: string -> string) {
    forall i | 0 <= i < |entries| :: EntryStands(entries, i, clients, sha256)
  }

  /** The first defect: its index, and the entry's own reason or the doubled binding. */
  predicate IsFirstDefect(entries: seq<Value>, clients: set<string>, sha256: string -> string, reason: Reason) {
    && (reason.At? || reason.BindingTwice?)
    && reason.index < |entries|
    && (forall k | 0 <= k < reason.index :: EntryStands(entries, k, clients, sha256))
    && !EntryStands(entries, reason.index, clients, sha256)
    && (reason.At? ==> ParseProfile(entries[reason.index], clients, sha256) == Err(reason.reason))
    && (reason.BindingTwice? ==> ParseProfile(entries[reason.index], clients, sha256).Ok?)
  }

  /** The first entries parse to `specs` and stand. */
  ghost predicate StandSoFar(entries: seq<Value>, specs: seq<Spec>, clients: set<string>, sha256: string -> string) {
    && |specs| <= |entries|
    && forall k | 0 <= k < |specs| ::
         ParseProfile(entries[k], clients, sha256) == Ok(specs[k]) && EntryStands(entries, k, clients, sha256)
  }

  lemma OneMoreStandsIff(entries: seq<Value>, specs: seq<Spec>, spec: Spec, clients: set<string>, sha256: string -> string)
    requires StandSoFar(entries, specs, clients, sha256)
    requires |specs| < |entries| && ParseProfile(entries[|specs|], clients, sha256) == Ok(spec)
    ensures if exists k | 0 <= k < |specs| :: BindingOf(specs[k]) == BindingOf(spec)
            then IsFirstDefect(entries, clients, sha256, BindingTwice(|specs|))
            else StandSoFar(entries, specs + [spec], clients, sha256)
  {
  }

  lemma NextIsRefused(entries: seq<Value>, specs: seq<Spec>, clients: set<string>, sha256: string -> string)
    requires StandSoFar(entries, specs, clients, sha256)
    requires |specs| < |entries| && ParseProfile(entries[|specs|], clients, sha256).Err?
    ensures IsFirstDefect(entries, clients, sha256, At(|specs|, ParseProfile(entries[|specs|], clients, sha256).reason))
  {
  }

  /** Nothing stands beyond the first defect's place, so a document with one does not stand. */
  lemma DefectiveDoesNotStand(entries: seq<Value>, clients: set<string>, sha256: string -> string, reason: Reason)
    requires IsFirstDefect(entries, clients, sha256, reason)
    ensures !AllStand(entries, clients, sha256)
  {
  }

  lemma StandingEntriesAreStated(entries: seq<Value>, specs: seq<Spec>, clients: set<string>, sha256: string -> string)
    requires StandSoFar(entries, specs, clients, sha256) && |specs| == |entries|
    ensures AllStand(entries, clients, sha256) && DistinctBindings(specs)
    ensures forall i | 0 <= i < |specs| :: Acceptable(entries[i], clients) && States(entries[i].fields, specs[i], sha256)
  {
    forall i | 0 <= i < |specs| ensures Acceptable(entries[i], clients) && States(entries[i].fields, specs[i], sha256) {
      ParsesIff(entries[i], specs[i], clients, sha256);
    }
    forall i, j | 0 <= i < j < |specs| ensures BindingOf(specs[i]) != BindingOf(specs[j]) {
      assert EntryStands(entries, j, clients, sha256);
    }
  }

  /** `parse_profiles`: all entries in order, or the whole document refused on its first defect. */
  method ParseProfiles(document: Value, clients: set<string>, sha256: string -> string) returns (r: Result<seq<Spec>>)
    ensures r.Ok? <==> DocumentShape(document) && AllStand(document.fields[PROFILES].items, clients, sha256)
    ensures r.Ok? ==>
              && |r.value| == |document.fields[PROFILES].items| && DistinctBindings(r.value)
              && forall i | 0 <= i < |r.value| ::
                   var entry := document.fields[PROFILES].items[i];
                   Acceptable(entry, clients) && States(entry.fields, r.value[i], sha256)
    ensures r == Err(BadDocument) <==> !document.Object? || document.fields.Keys != {VERSION, PROFILES}
    ensures r == Err(BadVersion) <==>
              document.Object? && document.fields.Keys == {VERSION, PROFILES} && document.fields[VERSION] != Num(1.0)
    ensures r.Err? && DocumentShape(document) ==>
              IsFirstDefect(document.fields[PROFILES].items, clients, sha256, r.reason)
  {
    if !document.Object? || document.fields.Keys != {VERSION, PROFILES} {
      return Err(BadDocument);
    }
    if document.fields[VERSION] != Num(1.0) {
      return Err(BadVersion);
    }
    if !document.fields[PROFILES].List? {
      return Err(ProfilesNotAList);
    }
    var entries := document.fields[PROFILES].items;
    var specs: seq<Spec> := [];
    var seen: set<Binding> := {};
    for i := 0 to |entries|
      invariant |specs| == i && StandSoFar(entries, specs, clients, sha256)
      invariant forall b :: b in seen <==> exists k | 0 <= k < i :: BindingOf(specs[k]) == b
    {
      var parsed := ParseProfile(entries[i], clients, sha256);
      if parsed.Err? {
        NextIsRefused(entries, specs, clients, sha256);
        DefectiveDoesNotStand(entries, clients, sha256, At(i, parsed.reason));
        return Err(At(i, parsed.reason));
      }
      OneMoreStandsIff(entries, specs, parsed.value, clients, sha256);
      var binding := BindingOf(parsed.value);
      if binding in seen {
        DefectiveDoesNotStand(entries, clients, sha256, BindingTwice(i));
        return Err(BindingTwice(i));
      }
      seen := seen + {binding};
      specs := specs + [parsed.value];
    }
    StandingEntriesAreStated(entries, specs, clients, sha256);
    return Ok(specs);
  }

  predicate DistinctBindings(specs: seq<Spec>) {
    forall i, j | 0 <= i < j < |specs| :: BindingOf(specs[i]) != BindingOf(specs[j])
  }

  /** Acceptance does not depend on the order of the entries, only the index reported does. */
  lemma AcceptanceIgnoresOrder(entries: seq<Value>, clients: set<string>, sha256: string -> string)
    ensures AllStand(entries, clients, sha256) <==>
            (&& (forall i | 0 <= i < |entries| :: Acceptable(entries[i], clients))
             && (forall i, j | 0 <= i < |entries| && 0 <= j < |entries| && i != j ::
                   !SameBinding(entries[i], entries[j], clients, sha256)))
  {
    forall i | 0 <= i < |entries| ensures ParseProfile(entries[i], clients, sha256).Ok? <==> Acceptable(entries[i], clients) {
      AcceptedIff(entries[i], clients, sha256);
    }
    if AllStand(entries, clients, sha256) {
      forall i | 0 <= i < |entries| ensures ParseProfile(entries[i], clients, sha256).Ok? {
        assert EntryStands(entries, i, clients, sha256);
      }
      forall i, j | 0 <= i < |entries| && 0 <= j < |entries| && i != j
        ensures !SameBinding(entries[i], entries[j], clients, sha256)
      {
        assert EntryStands(entries, i, clients, sha256) && EntryStands(entries, j, clients, sha256);
      }
    }
    if (forall i | 0 <= i < |entries| :: ParseProfile(entries[i], clients, sha256).Ok?)
       && (forall i, j | 0 <= i < |entries| && 0 <= j < |entries| && i != j ::
             !SameBinding(entries[i], entries[j], clients, sha256)) {
      forall i | 0 <= i < |entries| ensures EntryStands(entries, i, clients, sha256) {
        forall k | 0 <= k < i ensures !SameBinding(entries[k], entries[i], clients, sha256) {
        }
      }
    }
  }

  predicate SameBinding(e: Value, f: Value, clients: set<string>, sha256: string -> string) {
    var (r, q) := (ParseProfile(e, clients, sha256), ParseProfile(f, clients, sha256));
    r.Ok? && q.Ok? && BindingOf(r.value) == BindingOf(q.value)
  }

  function RenderDocument(specs: seq<Spec>): Value {
    Object(map[VERSION := Num(1.0), PROFILES := List(seq(|specs|, i requires 0 <= i < |specs| => Render(specs[i])))])
  }

  /** A list of valid profiles, stated as a document, is accepted exactly when no binding comes twice. */
  lemma RenderedDocumentStandsIff(specs: seq<Spec>, clients: set<string>, sha256: string -> string)
    requires forall i | 0 <= i < |specs| :: ValidSpec(specs[i], clients)
    ensures DocumentShape(RenderDocument(specs))
    ensures AllStand(RenderDocument(specs).fields[PROFILES].items, clients, sha256) <==> DistinctBindings(specs)
  {
    assert |VERSION| == 7 && |PROFILES| == 8;
    var document := RenderDocument(specs);
    assert document.fields.Keys == {VERSION, PROFILES};
    var entries := document.fields[PROFILES].items;
    forall i | 0 <= i < |specs| ensures ParseProfile(entries[i], clients, sha256) == Ok(specs[i]) {
      RenderParsesBack(specs[i], clients, sha256);
    }
    if AllStand(entries, clients, sha256) {
      forall i, j | 0 <= i < j < |specs| ensures BindingOf(specs[i]) != BindingOf(specs[j]) {
        assert EntryStands(entries, j, clients, sha256);
      }
    }
  }
}
