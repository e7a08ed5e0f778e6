/**
 * Sealed evidence tokens of packages/cre/src/evidence.ts: a validated reference, written by `stableStringify`, sealed
 * by the caller's primitive, and opened again within its lifetime.
 */
module EvidenceToken {
  import opened Wrappers
  import opened JsonText
  import opened StableJson
  import I = IntegerText

  const MAX_TOKEN_LENGTH := 8192
  const MAX_REFERENCE_LENGTH := 256
  const MAX_TTL_SECONDS := 900
  const CLOCK_SKEW_SECONDS := 30

  function Ascii(s: string): (r: Text)
    ensures |r| == |s|
  {
    seq(|s|, i requires 0 <= i < |s| => if s[i] < 128 as char then s[i] as int else 0)
  }

  // ---- Names and enumerations ----

  /** The properties of a claims object. */
  datatype Name =
    | Audience | BatchId | EntityId | Event | ExpiresAt | IssuedAt | Kind | Nonce | Phase | TeamId | Version

  function KeyText(n: Name): Text {
    match n
    case Audience => Ascii("audience")
    case BatchId => Ascii("batchId")
    case EntityId => Ascii("entityId")
    case Event => Ascii("event")
    case ExpiresAt => Ascii("expiresAt")
    case IssuedAt => Ascii("issuedAt")
    case Kind => Ascii("kind")
    case Nonce => Ascii("nonce")
    case Phase => Ascii("phase")
    case TeamId => Ascii("teamId")
    case Version => Ascii("version")
  }

  datatype KindName = PaymentScoreKind | ContractKind | PayrollKind | ReimbursementKind | ReportKind | ProjectKind

  function KindText(k: KindName): Text {
    match k
    case PaymentScoreKind => Ascii("payment-score")
    case ContractKind => Ascii("contract")
    case PayrollKind => Ascii("payroll")
    case ReimbursementKind => Ascii("reimbursement")
    case ReportKind => Ascii("report")
    case ProjectKind => Ascii("project")
  }

  datatype EventName = Deploy | Sign | Fund | Complete | Cancel

  function EventText(e: EventName): Text {
    match e
    case Deploy => Ascii("contract_deploy")
    case Sign => Ascii("contract_sign")
    case Fund => Ascii("contract_fund")
    case Complete => Ascii("contract_complete")
    case Cancel => Ascii("contract_cancel")
  }

  datatype PhaseName = Sent | Paid | Closed

  function PhaseText(p: PhaseName): Text {
    match p
    case Sent => Ascii("sent")
    case Paid => Ascii("paid")
    case Closed => Ascii("closed")
  }

  // ---- Validation ----

  datatype Reference =
    | PaymentScore(entityId: Text, teamId: Text)
    | Contract(entityId: Text, teamId: Text, event: EventName)
    | Payroll(entityId: Text, teamId: Text, batchId: Option<Text>)
    | Reimbursement(entityId: Text, teamId: Text, phase: PhaseName)
    | Report(entityId: Text, teamId: Text)
    | Project(entityId: Text, teamId: Text, phase: PhaseName)

  datatype TokenError =
    | InvalidField(name: Name)
    | InvalidWorkspace
    | InvalidTtl
    | Unwritable(reason: Refusal)
    | TooLarge
    | InvalidToken
    | NotAnInteger(name: Name)
    | Expired
    | InvalidLifetime

  function KindOf(v: Json): Option<KindName> {
    if v == Str(KindText(PaymentScoreKind)) then Some(PaymentScoreKind)
    else if v == Str(KindText(ContractKind)) then Some(ContractKind)
    else if v == Str(KindText(PayrollKind)) then Some(PayrollKind)
    else if v == Str(KindText(ReimbursementKind)) then Some(ReimbursementKind)
    else if v == Str(KindText(ReportKind)) then Some(ReportKind)
    else if v == Str(KindText(ProjectKind)) then Some(ProjectKind)
    else None
  }

  function EventOf(v: Json): Option<EventName> {
    if v == Str(EventText(Deploy)) then Some(Deploy)
    else if v == Str(EventText(Sign)) then Some(Sign)
    else if v == Str(EventText(Fund)) then Some(Fund)
    else if v == Str(EventText(Complete)) then Some(Complete)
    else if v == Str(EventText(Cancel)) then Some(Cancel)
    else None
  }

  function PhaseOf(v: Json): Option<PhaseName> {
    if v == Str(PhaseText(Sent)) then Some(Sent)
    else if v == Str(PhaseText(Paid)) then Some(Paid)
    else if v == Str(PhaseText(Closed)) then Some(Closed)
    else None
  }

  /** A JSON object as the code reads it: each named property, `Undefined` when it has none. */
  datatype View = View(kind: Json, entityId: Json, teamId: Json, event: Json, batchId: Json, phase: Json,
                       audience: Json, expiresAt: Json, issuedAt: Json, nonce: Json, version: Json)

  function Get(fields: seq<Field>, key: Text): Json {
    if fields == [] then Undefined
    else if fields[0].key == key then fields[0].value
    else Get(fields[1..], key)
  }

  function ViewOf(fields: seq<Field>): View {
    View(Get(fields, KeyText(Kind)), Get(fields, KeyText(EntityId)), Get(fields, KeyText(TeamId)),
         Get(fields, KeyText(Event)), Get(fields, KeyText(BatchId)), Get(fields, KeyText(Phase)),
         Get(fields, KeyText(Audience)), Get(fields, KeyText(ExpiresAt)), Get(fields, KeyText(IssuedAt)),
         Get(fields, KeyText(Nonce)), Get(fields, KeyText(Version)))
  }

  /** A non-empty, short string without control characters. */
  predicate IsReference(v: Json) {
    v.Str? && 0 < |v.s| <= MAX_REFERENCE_LENGTH && forall i :: 0 <= i < |v.s| ==> v.s[i] >= 32 && v.s[i] != 127
  }

  predicate IsHexUnit(u: Unit) {
    48 <= u <= 57 || 65 <= u <= 70 || 97 <= u <= 102
  }

  /** 8-4-4-4-12 hexadecimal digits, in either case. */
  predicate IsUuid(t: Text) {
    |t| == 36 && forall i :: 0 <= i < 36 ==> if i in {8, 13, 18, 23} then t[i] == 45 else IsHexUnit(t[i])
  }

  /** JavaScript truthiness. */
  predicate Truthy(v: Json) {
    match v
    case Null => false
    case Undefined => false
    case NotANumber => false
    case Bool(b) => b
    case Num(n) => n.Finite?
    case Str(s) => s != []
    case Other(t) => t
    case _ => true
  }

  /** The cases of `validateReference`'s switch. */
  function ValidateKind(kind: KindName, entity: Text, team: Text, v: View): Result<Reference, TokenError> {
    match kind
    case PaymentScoreKind =>
      if entity != team || !IsUuid(team) then Err(InvalidWorkspace) else Ok(PaymentScore(entity, team))
    case ContractKind =>
      if EventOf(v.event).None? then Err(InvalidField(Event)) else Ok(Contract(entity, team, EventOf(v.event).value))
    case PayrollKind =>
      if !Truthy(v.batchId) then Ok(Payroll(entity, team, None))
      else if !IsReference(v.batchId) then Err(InvalidField(BatchId))
      else Ok(Payroll(entity, team, Some(v.batchId.s)))
    case ReimbursementKind =>
      if PhaseOf(v.phase).None? || PhaseOf(v.phase) == Some(Closed) then Err(InvalidField(Phase))
      else Ok(Reimbursement(entity, team, PhaseOf(v.phase).value))
    case ReportKind => Ok(Report(entity, team))
    case ProjectKind =>
      if PhaseOf(v.phase).None? then Err(InvalidField(Phase)) else Ok(Project(entity, team, PhaseOf(v.phase).value))
  }

  /** `validateReference`; an unknown kind falls off its switch and gives no reference. */
  function ValidateReference(v: View): Result<Option<Reference>, TokenError> {
    if !IsReference(v.entityId) then Err(InvalidField(EntityId))
    else if !IsReference(v.teamId) then Err(InvalidField(TeamId))
    else
      var entity, team := v.entityId.s, v.teamId.s;
      match KindOf(v.kind)
      case None => Ok(None)
      case Some(kind) =>
        match ValidateKind(kind, entity, team, v)
        case Err(e) => Err(e)
        case Ok(r) => Ok(Some(r))
  }

  // ---- Sealing ----

  function Prefix(): Text {
    Ascii("bufi_cre_evidence_v1.")
  }

  function AudienceText(): Text {
    Ascii("bufi-cre-evidence")
  }

  /** A `Date`: milliseconds within its range, or an invalid date. */
  type Millis = x: int | -8640000000000000 <= x <= 8640000000000000

  type Date = Option<Millis>

  /** `Math.floor(getTime() / 1000)` */
  function Seconds(now: Date): Option<int> {
    if now.None? then None else Some(now.value as int / 1000)
  }

  function SafeInteger(v: Json): Option<int> {
    if v.Num? then I.SafeInteger(v.n) else None
  }

  function IntJson(n: int): Json {
    Num(I.OfInt(n))
  }

  function TimeJson(t: Option<int>, plus: int): Json {
    if t.None? then NotANumber else IntJson(t.value + plus)
  }

  function ReferenceKind(r: Reference): KindName {
    match r
    case PaymentScore(_, _) => PaymentScoreKind
    case Contract(_, _, _) => ContractKind
    case Payroll(_, _, _) => PayrollKind
    case Reimbursement(_, _, _) => ReimbursementKind
    case Report(_, _) => ReportKind
    case Project(_, _, _) => ProjectKind
  }

  /** The property only this kind of reference has. */
  function Extra(r: Reference): seq<(Name, Json)> {
    match r
    case Contract(_, _, event) => [(Event, Str(EventText(event)))]
    case Payroll(_, _, Some(batch)) => [(BatchId, Str(batch))]
    case Reimbursement(_, _, phase) => [(Phase, Str(PhaseText(phase)))]
    case Project(_, _, phase) => [(Phase, Str(PhaseText(phase)))]
    case _ => []
  }

  /** The properties of a reference, as `validateReference` rebuilds it. */
  function NamedReference(r: Option<Reference>): seq<(Name, Json)> {
    if r.None? then []
    else
      [(Kind, Str(KindText(ReferenceKind(r.value)))), (EntityId, Str(r.value.entityId)), (TeamId, Str(r.value.teamId))]
      + Extra(r.value)
  }

  function NamedToken(issuedAt: Json, expiresAt: Json, nonce: Text): seq<(Name, Json)> {
    [(Audience, Str(AudienceText())), (ExpiresAt, expiresAt), (IssuedAt, issuedAt), (Nonce, Str(nonce)),
     (Version, IntJson(1))]
  }

  function NamedClaims(r: Option<Reference>, issuedAt: Json, expiresAt: Json, nonce: Text): seq<(Name, Json)> {
    NamedReference(r) + NamedToken(issuedAt, expiresAt, nonce)
  }

  function FieldsOf(named: seq<(Name, Json)>): (r: seq<Field>)
    ensures |r| == |named|
  {
    seq(|named|, i requires 0 <= i < |named| => Field(KeyText(named[i].0), named[i].1))
  }

  function WriteClaims(r: Option<Reference>, t: Option<int>, life: int, nonce: Text): Result<Text, Refusal> {
    StableStringify(Obj(FieldsOf(NamedClaims(r, TimeJson(t, 0), TimeJson(t, life), nonce))))
  }

  /** What to seal: the claims in canonical text. */
  function Plaintext(reference: View, now: Date, ttl: Json, nonce: Json): Result<Text, TokenError> {
    match ValidateReference(reference)
    case Err(e) => Err(e)
    case Ok(r) =>
      match SafeInteger(ttl)
      case None => Err(InvalidTtl)
      case Some(seconds) =>
        if !(1 <= seconds <= MAX_TTL_SECONDS) then Err(InvalidTtl)
        else if !IsReference(nonce) then Err(InvalidField(Nonce))
        else
          match WriteClaims(r, Seconds(now), seconds, nonce.s)
          case Err(e) => Err(Unwritable(e))
          case Ok(text) => Ok(text)
  }

  /** `createCreEvidenceToken`, with the defaults for lifetime and nonce already in place. */
  function CreateToken(reference: View, seal: Text -> Text, now: Date, ttl: Json,
                       nonce: Json): Result<Text, TokenError> {
    match Plaintext(reference, now, ttl, nonce)
    case Err(e) => Err(e)
    case Ok(text) =>
      var token := Prefix() + seal(text);
      if |token| > MAX_TOKEN_LENGTH then Err(TooLarge) else Ok(token)
  }

  // ---- Opening ----

  /** The claims handed back; `audience` and `version` are fixed. */
  datatype Claims = Claims(reference: Option<Reference>, expiresAt: int, issuedAt: int, nonce: Text)

  /** A whole text read as one value. */
  function Parse(t: Text): Option<Json> {
    match ReadValue(t)
    case None => None
    case Some((v, rest)) => if rest == [] then Some(v) else None
  }

  /** Issue and expiry times in order; comparisons with an invalid date's NaN are all false. */
  function CheckTimes(v: View, current: Option<int>): Result<(int, int), TokenError> {
    match SafeInteger(v.issuedAt)
    case None => Err(NotAnInteger(IssuedAt))
    case Some(issuedAt) =>
      match SafeInteger(v.expiresAt)
      case None => Err(NotAnInteger(ExpiresAt))
      case Some(expiresAt) =>
        if current.Some? && (issuedAt > current.value + CLOCK_SKEW_SECONDS || expiresAt <= current.value)
        then Err(Expired)
        else if expiresAt <= issuedAt || expiresAt - issuedAt > MAX_TTL_SECONDS then Err(InvalidLifetime)
        else Ok((issuedAt, expiresAt))
  }

  function CheckClaims(v: View, now: Date): Result<Claims, TokenError> {
    if v.version != IntJson(1) || v.audience != Str(AudienceText()) then Err(InvalidToken)
    else
      match CheckTimes(v, Seconds(now))
      case Err(e) => Err(e)
      case Ok((issuedAt, expiresAt)) =>
        if !IsReference(v.nonce) then Err(InvalidField(Nonce))
        else
          match ValidateReference(v)
          case Err(e) => Err(e)
          case Ok(r) => Ok(Claims(r, expiresAt, issuedAt, v.nonce.s))
  }

  function OpenText(text: Option<Text>, now: Date): Result<Claims, TokenError> {
    if text.None? then Err(InvalidToken)
    else
      var parsed := Parse(text.value);
      if parsed.None? || !parsed.value.Obj? then Err(InvalidToken)
      else CheckClaims(ViewOf(parsed.value.fields), now)
  }

  /** `openCreEvidenceToken`; `unseal` gives `None` where it throws. */
  function OpenToken(token: Text, unseal: Text -> Option<Text>, now: Date): Result<Claims, TokenError> {
    if !(Prefix() <= token) || |token| <= |Prefix()| || |token| > MAX_TOKEN_LENGTH then Err(InvalidToken)
    else OpenText(unseal(token[|Prefix()|..]), now)
  }

  // ---- Texts tell names apart ----

  function KeyHead(n: Name): (Unit, Unit) {
    match n
    case Audience => (97, 117)
    case BatchId => (98, 97)
    case EntityId => (101, 110)
    case Event => (101, 118)
    case ExpiresAt => (101, 120)
    case IssuedAt => (105, 115)
    case Kind => (107, 105)
    case Nonce => (110, 111)
    case Phase => (112, 104)
    case TeamId => (116, 101)
    case Version => (118, 101)
  }

  lemma KeyTextStarts(n: Name)
    ensures |KeyText(n)| >= 2 && KeyText(n)[0] == KeyHead(n).0 && KeyText(n)[1] == KeyHead(n).1
  {
  }

  lemma KeysDiffer(a: Name, b: Name)
    requires a != b
    ensures KeyText(a) != KeyText(b)
  {
    KeyTextStarts(a);
    KeyTextStarts(b);
  }

  function KindMark(k: KindName): (nat, Unit) {
    match k
    case PaymentScoreKind => (13, 97)
    case ContractKind => (8, 111)
    case PayrollKind => (7, 97)
    case ReimbursementKind => (13, 101)
    case ReportKind => (6, 101)
    case ProjectKind => (7, 114)
  }

  lemma KindTextShape(k: KindName)
    ensures |KindText(k)| == KindMark(k).0 && KindText(k)[1] == KindMark(k).1
  {
  }

  lemma KindsDiffer(a: KindName, b: KindName)
    requires a != b
    ensures KindText(a) != KindText(b)
  {
    KindTextShape(a);
    KindTextShape(b);
  }

  lemma KindRoundTrip(k: KindName)
    ensures KindOf(Str(KindText(k))) == Some(k)
  {
    forall j: KindName | j != k
      ensures KindText(j) != KindText(k)
    {
      KindsDiffer(j, k);
    }
  }

  function EventMark(e: EventName): (nat, Unit) {
    match e
    case Deploy => (15, 100)
    case Sign => (13, 115)
    case Fund => (13, 102)
    case Complete => (17, 99)
    case Cancel => (15, 99)
  }

  lemma EventTextShape(e: EventName)
    ensures |EventText(e)| == EventMark(e).0 && EventText(e)[9] == EventMark(e).1
  {
  }

  lemma EventsDiffer(a: EventName, b: EventName)
    requires a != b
    ensures EventText(a) != EventText(b)
  {
    EventTextShape(a);
    EventTextShape(b);
  }

  lemma EventRoundTrip(e: EventName)
    ensures EventOf(Str(EventText(e))) == Some(e)
  {
    forall j: EventName | j != e
      ensures EventText(j) != EventText(e)
    {
      EventsDiffer(j, e);
    }
  }

  lemma PhaseRoundTrip(p: PhaseName)
    ensures PhaseOf(Str(PhaseText(p))) == Some(p)
  {
    assert PhaseText(Sent)[0] == 115 && PhaseText(Paid)[0] == 112 && PhaseText(Closed)[0] == 99;
  }

  // ---- Looking properties up ----

  lemma {:induction false} GetPresent(fields: seq<Field>, i: nat)
    requires DistinctKeys(fields) && i < |fields|
    ensures Get(fields, fields[i].key) == fields[i].value
  {
    if i > 0 {
      GetPresent(fields[1..], i - 1);
      assert fields[0].key != fields[i].key;
    }
  }

  lemma {:induction false} GetAbsent(fields: seq<Field>, key: Text)
    requires forall i :: 0 <= i < |fields| ==> fields[i].key != key
    ensures Get(fields, key) == Undefined
  {
    if fields != [] {
      GetAbsent(fields[1..], key);
    }
  }

  predicate DistinctNames(named: seq<(Name, Json)>) {
    forall i, j :: 0 <= i < j < |named| ==> named[i].0 != named[j].0
  }

  lemma NamedKeysDistinct(named: seq<(Name, Json)>)
    requires DistinctNames(named)
    ensures DistinctKeys(FieldsOf(named))
  {
    forall i, j | 0 <= i < j < |named|
      ensures FieldsOf(named)[i].key != FieldsOf(named)[j].key
    {
      KeysDiffer(named[i].0, named[j].0);
    }
  }

  /** The value listed under a name, or `Undefined`. */
  ghost function Listed(named: seq<(Name, Json)>, n: Name): Json {
    if exists i :: 0 <= i < |named| && named[i].0 == n then
      var i :| 0 <= i < |named| && named[i].0 == n;
      named[i].1
    else Undefined
  }

  lemma GetListed(named: seq<(Name, Json)>, n: Name)
    requires DistinctNames(named)
    ensures Get(FieldsOf(named), KeyText(n)) == Listed(named, n)
  {
    NamedKeysDistinct(named);
    if exists i :: 0 <= i < |named| && named[i].0 == n {
      var i :| 0 <= i < |named| && named[i].0 == n && Listed(named, n) == named[i].1;
      GetPresent(FieldsOf(named), i);
    } else {
      forall i | 0 <= i < |named|
        ensures FieldsOf(named)[i].key != KeyText(n)
      {
        KeysDiffer(named[i].0, n);
      }
      GetAbsent(FieldsOf(named), KeyText(n));
    }
  }

  /** Sorting an object's properties changes no lookup when none of them holds an object or array. */
  ghost predicate Flat(v: Json) {
    && v.Obj? && DistinctKeys(v.fields)
    && forall i :: 0 <= i < |v.fields| ==> v.fields[i].value.Str? || v.fields[i].value.Num?
  }

  lemma SortedHasDistinctKeys(fields: seq<Field>)
    requires Sorted(fields)
    ensures DistinctKeys(fields)
  {
    forall i, j | 0 <= i < j < |fields|
      ensures fields[i].key != fields[j].key
    {
      LessIsTotal(fields[i].key, fields[j].key);
    }
  }

  lemma CanonIsSorted(v: Json)
    requires Flat(v) && Supported(v)
    ensures CanonFields(v) == Sort(v.fields) && DistinctKeys(Sort(v.fields))
  {
    SortSorted(v.fields);
    SortedHasDistinctKeys(Sort(v.fields));
    forall i | 0 <= i < |v.fields|
      ensures CanonFields(v)[i] == Sort(v.fields)[i]
    {
      assert Sort(v.fields)[i] in v.fields;
    }
  }

  lemma CanonKeepsLookups(v: Json, key: Text)
    requires Flat(v) && Supported(v)
    ensures Get(CanonFields(v), key) == Get(v.fields, key)
  {
    var sorted := Sort(v.fields);
    CanonIsSorted(v);
    if exists i :: 0 <= i < |v.fields| && v.fields[i].key == key {
      var i :| 0 <= i < |v.fields| && v.fields[i].key == key;
      assert v.fields[i] in sorted;
      var p :| 0 <= p < |sorted| && sorted[p] == v.fields[i];
      GetPresent(v.fields, i);
      GetPresent(sorted, p);
    } else {
      GetAbsent(v.fields, key);
      forall p | 0 <= p < |sorted|
        ensures sorted[p].key != key
      {
        assert sorted[p] in v.fields;
      }
      GetAbsent(sorted, key);
    }
  }

  lemma CanonKeepsView(v: Json)
    requires Flat(v) && Supported(v)
    ensures ViewOf(CanonFields(v)) == ViewOf(v.fields)
  {
    forall n: Name
      ensures Get(CanonFields(v), KeyText(n)) == Get(v.fields, KeyText(n))
    {
      CanonKeepsLookups(v, KeyText(n));
    }
  }

  /** Writing a flat object and parsing the text shows the same properties. */
  lemma FlatRoundTrip(v: Json)
    requires Flat(v)
    ensures Supported(v) && StableStringify(v) == Ok(Stringify(v))
    ensures var p := Parse(Stringify(v)); p.Some? && p.value.Obj? && ViewOf(p.value.fields) == ViewOf(v.fields)
  {
    WritesExactlyTheSupported(v);
    ReadBack(v, []);
    assert Stringify(v) + [] == Stringify(v);
    CanonKeepsView(v);
  }

  // ---- Claims ----

  lemma ListedAt(named: seq<(Name, Json)>, i: nat)
    requires DistinctNames(named) && i < |named|
    ensures Listed(named, named[i].0) == named[i].1
  {
  }

  lemma ClaimNamesDistinct(r: Option<Reference>, issuedAt: Json, expiresAt: Json, nonce: Text)
    ensures DistinctNames(NamedClaims(r, issuedAt, expiresAt, nonce))
  {
    ReferenceNamesDistinct(r);
    TokenNamesDistinct(issuedAt, expiresAt, nonce);
    JoinedNamesDistinct(NamedReference(r), NamedToken(issuedAt, expiresAt, nonce));
  }

  predicate OfReference(n: Name) {
    n in {Kind, EntityId, TeamId, Event, BatchId, Phase}
  }

  lemma ReferenceNamesDistinct(r: Option<Reference>)
    ensures DistinctNames(NamedReference(r))
    ensures forall i :: 0 <= i < |NamedReference(r)| ==> OfReference(NamedReference(r)[i].0)
  {
  }

  lemma TokenNamesDistinct(issuedAt: Json, expiresAt: Json, nonce: Text)
    ensures DistinctNames(NamedToken(issuedAt, expiresAt, nonce))
    ensures var named := NamedToken(issuedAt, expiresAt, nonce);
      forall i :: 0 <= i < |named| ==> !OfReference(named[i].0)
  {
  }

  lemma JoinedNamesDistinct(a: seq<(Name, Json)>, b: seq<(Name, Json)>)
    requires DistinctNames(a) && DistinctNames(b)
    requires forall i :: 0 <= i < |a| ==> OfReference(a[i].0)
    requires forall i :: 0 <= i < |b| ==> !OfReference(b[i].0)
    ensures DistinctNames(a + b)
  {
  }

  /** The view of sealed claims: the reference's own properties and no others, then the token's. */
  function ClaimsView(r: Option<Reference>, issuedAt: Json, expiresAt: Json, nonce: Text): View {
    var audience, version := Str(AudienceText()), IntJson(1);
    if r.None? then
      View(Undefined, Undefined, Undefined, Undefined, Undefined, Undefined,
           audience, expiresAt, issuedAt, Str(nonce), version)
    else
      var ref := r.value;
      View(Str(KindText(ReferenceKind(ref))), Str(ref.entityId), Str(ref.teamId),
           if ref.Contract? then Str(EventText(ref.event)) else Undefined,
           if ref.Payroll? && ref.batchId.Some? then Str(ref.batchId.value) else Undefined,
           if ref.Reimbursement? || ref.Project? then Str(PhaseText(ref.phase)) else Undefined,
           audience, expiresAt, issuedAt, Str(nonce), version)
  }

  ghost function ListedView(named: seq<(Name, Json)>): View {
    View(Listed(named, Kind), Listed(named, EntityId), Listed(named, TeamId), Listed(named, Event),
         Listed(named, BatchId), Listed(named, Phase), Listed(named, Audience), Listed(named, ExpiresAt),
         Listed(named, IssuedAt), Listed(named, Nonce), Listed(named, Version))
  }

  lemma FieldsShowListed(named: seq<(Name, Json)>)
    requires DistinctNames(named)
    ensures ViewOf(FieldsOf(named)) == ListedView(named)
  {
    GetListed(named, Kind);
    GetListed(named, EntityId);
    GetListed(named, TeamId);
    GetListed(named, Event);
    GetListed(named, BatchId);
    GetListed(named, Phase);
    GetListed(named, Audience);
    GetListed(named, ExpiresAt);
    GetListed(named, IssuedAt);
    GetListed(named, Nonce);
    GetListed(named, Version);
  }

  ghost predicate Has(named: seq<(Name, Json)>, n: Name) {
    exists i :: 0 <= i < |named| && named[i].0 == n
  }

  lemma ListedInRight(a: seq<(Name, Json)>, b: seq<(Name, Json)>, i: nat)
    requires DistinctNames(a + b) && i < |b|
    ensures Listed(a + b, b[i].0) == b[i].1
  {
    assert (a + b)[|a| + i] == b[i];
    ListedAt(a + b, |a| + i);
  }

  lemma ListedInLeft(a: seq<(Name, Json)>, b: seq<(Name, Json)>, n: Name)
    requires DistinctNames(a + b) && !Has(b, n)
    ensures Listed(a + b, n) == Listed(a, n)
  {
    var c := a + b;
    assert forall i :: 0 <= i < |a| ==> c[i] == a[i];
    if Has(c, n) {
      var i :| 0 <= i < |c| && c[i].0 == n;
      assert forall k :: |a| <= k < |c| ==> c[k] == b[k - |a|];
      ListedAt(c, i);
      assert forall j, k :: 0 <= j < k < |a| ==> c[j].0 != c[k].0;
      ListedAt(a, i);
    } else {
      assert !Has(a, n);
    }
  }

  lemma TokenListed(r: Option<Reference>, issuedAt: Json, expiresAt: Json, nonce: Text)
    ensures var named, v := NamedClaims(r, issuedAt, expiresAt, nonce), ClaimsView(r, issuedAt, expiresAt, nonce);
      && Listed(named, Audience) == v.audience && Listed(named, ExpiresAt) == v.expiresAt
      && Listed(named, IssuedAt) == v.issuedAt && Listed(named, Nonce) == v.nonce && Listed(named, Version) == v.version
  {
    ClaimNamesDistinct(r, issuedAt, expiresAt, nonce);
    var a, b := NamedReference(r), NamedToken(issuedAt, expiresAt, nonce);
    ListedInRight(a, b, 0);
    ListedInRight(a, b, 1);
    ListedInRight(a, b, 2);
    ListedInRight(a, b, 3);
    ListedInRight(a, b, 4);
  }

  lemma TokenHasNoReference(issuedAt: Json, expiresAt: Json, nonce: Text, n: Name)
    requires n in {Kind, EntityId, TeamId, Event, BatchId, Phase}
    ensures !Has(NamedToken(issuedAt, expiresAt, nonce), n)
  {
  }

  lemma ReferenceListed(r: Reference, v: View)
    requires v == ClaimsView(Some(r), v.issuedAt, v.expiresAt, if v.nonce.Str? then v.nonce.s else [])
    ensures var named := NamedReference(Some(r));
      && Listed(named, Kind) == v.kind && Listed(named, EntityId) == v.entityId && Listed(named, TeamId) == v.teamId
      && Listed(named, Event) == v.event && Listed(named, BatchId) == v.batchId && Listed(named, Phase) == v.phase
  {
    ReferenceNamesDistinct(Some(r));
    HeadListed(r);
    ExtraListed(r, Event);
    ExtraListed(r, BatchId);
    ExtraListed(r, Phase);
  }

  lemma HeadListed(r: Reference)
    ensures var named := NamedReference(Some(r));
      && Listed(named, Kind) == Str(KindText(ReferenceKind(r)))
      && Listed(named, EntityId) == Str(r.entityId) && Listed(named, TeamId) == Str(r.teamId)
  {
    var named := NamedReference(Some(r));
    ReferenceNamesDistinct(Some(r));
    ListedAt(named, 0);
    ListedAt(named, 1);
    ListedAt(named, 2);
  }

  lemma ExtraListed(r: Reference, n: Name)
    requires n == Event || n == BatchId || n == Phase
    ensures Listed(NamedReference(Some(r)), n)
         == if Extra(r) != [] && Extra(r)[0].0 == n then Extra(r)[0].1 else Undefined
  {
    var named := NamedReference(Some(r));
    ReferenceNamesDistinct(Some(r));
    assert named[0].0 == Kind && named[1].0 == EntityId && named[2].0 == TeamId;
    if Extra(r) != [] {
      ListedAt(named, 3);
    }
  }

  lemma ClaimsAreSeen(r: Option<Reference>, issuedAt: Json, expiresAt: Json, nonce: Text)
    ensures ViewOf(FieldsOf(NamedClaims(r, issuedAt, expiresAt, nonce))) == ClaimsView(r, issuedAt, expiresAt, nonce)
  {
    ClaimNamesDistinct(r, issuedAt, expiresAt, nonce);
    FieldsShowListed(NamedClaims(r, issuedAt, expiresAt, nonce));
    ListedClaims(r, issuedAt, expiresAt, nonce);
  }

  lemma ReferencePart(r: Option<Reference>, issuedAt: Json, expiresAt: Json, nonce: Text, n: Name)
    requires n in {Kind, EntityId, TeamId, Event, BatchId, Phase}
    ensures Listed(NamedClaims(r, issuedAt, expiresAt, nonce), n) == Listed(NamedReference(r), n)
  {
    ClaimNamesDistinct(r, issuedAt, expiresAt, nonce);
    TokenHasNoReference(issuedAt, expiresAt, nonce, n);
    ListedInLeft(NamedReference(r), NamedToken(issuedAt, expiresAt, nonce), n);
  }

  lemma ListedClaims(r: Option<Reference>, issuedAt: Json, expiresAt: Json, nonce: Text)
    ensures ListedView(NamedClaims(r, issuedAt, expiresAt, nonce)) == ClaimsView(r, issuedAt, expiresAt, nonce)
  {
    TokenListed(r, issuedAt, expiresAt, nonce);
    ReferencePart(r, issuedAt, expiresAt, nonce, Kind);
    ReferencePart(r, issuedAt, expiresAt, nonce, EntityId);
    ReferencePart(r, issuedAt, expiresAt, nonce, TeamId);
    ReferencePart(r, issuedAt, expiresAt, nonce, Event);
    ReferencePart(r, issuedAt, expiresAt, nonce, BatchId);
    ReferencePart(r, issuedAt, expiresAt, nonce, Phase);
    if r.Some? {
      ReferenceListed(r.value, ClaimsView(r, issuedAt, expiresAt, nonce));
    }
  }

  /** The claims of a token issued at second `from`. */
  function ClaimsJson(r: Option<Reference>, from: int, life: int, nonce: Text): Json {
    Obj(FieldsOf(NamedClaims(r, IntJson(from), IntJson(from + life), nonce)))
  }

  lemma ClaimsAreFlat(r: Option<Reference>, from: int, life: int, nonce: Text)
    ensures Flat(ClaimsJson(r, from, life, nonce))
  {
    var named := NamedClaims(r, IntJson(from), IntJson(from + life), nonce);
    ClaimNamesDistinct(r, IntJson(from), IntJson(from + life), nonce);
    NamedKeysDistinct(named);
    assert forall i :: 0 <= i < |named| ==> named[i].1.Str? || named[i].1.Num?;
  }

  /** What validation vouches for. */
  predicate ValidReference(r: Reference) {
    && IsReference(Str(r.entityId)) && IsReference(Str(r.teamId))
    && (r.PaymentScore? ==> r.entityId == r.teamId && IsUuid(r.teamId))
    && (r.Payroll? && r.batchId.Some? ==> IsReference(Str(r.batchId.value)))
    && (r.Reimbursement? ==> !r.phase.Closed?)
  }

  lemma ValidatedIsValid(v: View, r: Reference)
    requires ValidateReference(v) == Ok(Some(r))
    ensures ValidReference(r)
  {
  }

  lemma ContractRevalidates(entity: Text, team: Text, event: EventName, v: View)
    requires v.event == Str(EventText(event))
    ensures ValidateKind(ContractKind, entity, team, v) == Ok(Contract(entity, team, event))
  {
    EventRoundTrip(event);
  }

  lemma PhaseRevalidates(entity: Text, team: Text, phase: PhaseName, v: View)
    requires v.phase == Str(PhaseText(phase))
    ensures ValidateKind(ProjectKind, entity, team, v) == Ok(Project(entity, team, phase))
    ensures !phase.Closed? ==>
      ValidateKind(ReimbursementKind, entity, team, v) == Ok(Reimbursement(entity, team, phase))
  {
    PhaseRoundTrip(phase);
  }

  lemma PlainRevalidates(r: Reference, v: View)
    requires ValidReference(r) && (r.PaymentScore? || r.Payroll? || r.Report?)
    requires v.batchId == if r.Payroll? && r.batchId.Some? then Str(r.batchId.value) else Undefined
    ensures ValidateKind(ReferenceKind(r), r.entityId, r.teamId, v) == Ok(r)
  {
  }

  lemma KindRevalidates(r: Reference, issuedAt: Json, expiresAt: Json, nonce: Text)
    requires ValidReference(r)
    ensures var v := ClaimsView(Some(r), issuedAt, expiresAt, nonce);
      ValidateKind(ReferenceKind(r), r.entityId, r.teamId, v) == Ok(r)
  {
    var v := ClaimsView(Some(r), issuedAt, expiresAt, nonce);
    match r
    case Contract(entity, team, event) => ContractRevalidates(entity, team, event, v);
    case Reimbursement(entity, team, phase) => PhaseRevalidates(entity, team, phase, v);
    case Project(entity, team, phase) => PhaseRevalidates(entity, team, phase, v);
    case _ => PlainRevalidates(r, v);
  }

  lemma ValidateKnownKind(v: View, kind: KindName)
    requires IsReference(v.entityId) && IsReference(v.teamId) && KindOf(v.kind) == Some(kind)
    requires ValidateKind(kind, v.entityId.s, v.teamId.s, v).Ok?
    ensures ValidateReference(v) == Ok(Some(ValidateKind(kind, v.entityId.s, v.teamId.s, v).value))
  {
  }

  /** Validating a valid reference's own properties gives it back. */
  lemma ValidationIsIdempotent(r: Reference, issuedAt: Json, expiresAt: Json, nonce: Text)
    requires ValidReference(r)
    ensures ValidateReference(ClaimsView(Some(r), issuedAt, expiresAt, nonce)) == Ok(Some(r))
  {
    KindRoundTrip(ReferenceKind(r));
    KindRevalidates(r, issuedAt, expiresAt, nonce);
    ValidateKnownKind(ClaimsView(Some(r), issuedAt, expiresAt, nonce), ReferenceKind(r));
  }

  lemma SafeIntegerRoundTrip(n: int)
    requires -9000000000000 <= n <= 9000000000000
    ensures SafeInteger(IntJson(n)) == Some(n)
  {
    I.IntRoundTrip(n);
  }

  lemma SecondsRange(now: Date)
    requires now.Some?
    ensures -8640000000000 <= Seconds(now).value <= 8640000000000
  {
  }

  lemma NaNIsRefused(r: Option<Reference>, nonce: Text)
    ensures StableStringify(Obj(FieldsOf(NamedClaims(r, NotANumber, NotANumber, nonce)))).Err?
  {
    var named := NamedClaims(r, NotANumber, NotANumber, nonce);
    ClaimNamesDistinct(r, NotANumber, NotANumber, nonce);
    NamedKeysDistinct(named);
    assert forall i :: 0 <= i < |named| ==> named[i].1.Str? || named[i].1.Num? || named[i].1.NotANumber?;
    assert named[|named| - 4].1 == NotANumber;
    UnsupportedFieldIsRefused(FieldsOf(named), |named| - 4);
  }

  lemma UnsupportedFieldIsRefused(fields: seq<Field>, k: nat)
    requires DistinctKeys(fields) && k < |fields| && fields[k].value.NotANumber?
    requires forall i :: 0 <= i < |fields| ==> WellFormed(fields[i].value)
    ensures StableStringify(Obj(fields)).Err?
  {
    WritesExactlyTheSupported(Obj(fields));
    assert !Supported(fields[k].value);
    assert !Supported(Obj(fields));
  }

  lemma NoClockWritesNothing(r: Option<Reference>, life: int, nonce: Text)
    ensures WriteClaims(r, None, life, nonce).Err?
  {
    NaNIsRefused(r, nonce);
  }

  lemma ClockWritesClaims(r: Option<Reference>, from: int, life: int, nonce: Text)
    ensures WriteClaims(r, Some(from), life, nonce) == StableStringify(ClaimsJson(r, from, life, nonce))
  {
    assert TimeJson(Some(from), 0) == IntJson(from) && TimeJson(Some(from), life) == IntJson(from + life);
  }

  /** The text of a flat object. */
  ghost predicate WrittenAs(v: Json, text: Result<Text, Refusal>) {
    Supported(v) && text == Ok(Stringify(v))
  }

  lemma FlatIsWritten(v: Json)
    requires Flat(v)
    ensures WrittenAs(v, StableStringify(v))
  {
    FlatRoundTrip(v);
  }

  lemma WrittenClaims(r: Option<Reference>, from: int, life: int, nonce: Text)
    ensures WrittenAs(ClaimsJson(r, from, life, nonce), WriteClaims(r, Some(from), life, nonce))
  {
    ClaimsAreFlat(r, from, life, nonce);
    ClockWritesClaims(r, from, life, nonce);
    FlatIsWritten(ClaimsJson(r, from, life, nonce));
  }

  /** What a caller must supply for there to be something to seal. */
  predicate Sealable(reference: View, issued: Date, ttl: Json, nonce: Json) {
    && ValidateReference(reference).Ok?
    && (SafeInteger(ttl).Some? && 1 <= SafeInteger(ttl).value <= MAX_TTL_SECONDS)
    && IsReference(nonce)
    && issued.Some?
  }

  lemma PlaintextWhenSealable(reference: View, issued: Date, ttl: Json, nonce: Json)
    ensures Plaintext(reference, issued, ttl, nonce).Ok? <==> Sealable(reference, issued, ttl, nonce)
    ensures Sealable(reference, issued, ttl, nonce) ==>
      var v := ClaimsJson(ValidateReference(reference).value, Seconds(issued).value, SafeInteger(ttl).value, nonce.s);
      WrittenAs(v, WriteClaims(ValidateReference(reference).value, Seconds(issued), SafeInteger(ttl).value, nonce.s))
      && Plaintext(reference, issued, ttl, nonce) == Ok(Stringify(v))
  {
    if ValidateReference(reference).Ok? && SafeInteger(ttl).Some? && IsReference(nonce) {
      var r, life := ValidateReference(reference).value, SafeInteger(ttl).value;
      if issued.None? {
        NoClockWritesNothing(r, life, nonce.s);
      } else {
        WrittenClaims(r, Seconds(issued).value, life, nonce.s);
      }
    }
  }

  /** A token is made exactly when its reference, lifetime, nonce and clock are valid and it is not too long. */
  lemma TokenIsMadeExactlyWhen(reference: View, seal: Text -> Text, issued: Date, ttl: Json, nonce: Json)
    ensures CreateToken(reference, seal, issued, ttl, nonce).Ok?
      <==> && Sealable(reference, issued, ttl, nonce)
           && 21 + |seal(Stringify(ClaimsOf(reference, issued, ttl, nonce)))| <= MAX_TOKEN_LENGTH
  {
    PlaintextWhenSealable(reference, issued, ttl, nonce);
  }

  /** The claims that a sealable token carries. */
  ghost function ClaimsOf(reference: View, issued: Date, ttl: Json, nonce: Json): (v: Json)
    requires Sealable(reference, issued, ttl, nonce)
    ensures Supported(v)
  {
    PlaintextWhenSealable(reference, issued, ttl, nonce);
    ClaimsJson(ValidateReference(reference).value, Seconds(issued).value, SafeInteger(ttl).value, nonce.s)
  }

  lemma OpenWritten(r: Option<Reference>, from: int, life: int, nonce: Text, now: Date)
    ensures Supported(ClaimsJson(r, from, life, nonce))
    ensures OpenText(Some(Stringify(ClaimsJson(r, from, life, nonce))), now)
         == CheckClaims(ClaimsView(r, IntJson(from), IntJson(from + life), nonce), now)
  {
    var v := ClaimsJson(r, from, life, nonce);
    ClaimsAreFlat(r, from, life, nonce);
    FlatRoundTrip(v);
    ClaimsAreSeen(r, IntJson(from), IntJson(from + life), nonce);
    OpenParsed(Stringify(v), ClaimsView(r, IntJson(from), IntJson(from + life), nonce), now);
  }

  lemma OpenParsed(text: Text, view: View, now: Date)
    requires var p := Parse(text); p.Some? && p.value.Obj? && ViewOf(p.value.fields) == view
    ensures OpenText(Some(text), now) == CheckClaims(view, now)
  {
  }

  lemma TimesWritten(v: View, from: int, life: int, current: Option<int>)
    requires v.issuedAt == IntJson(from) && v.expiresAt == IntJson(from + life)
    requires 1 <= life <= MAX_TTL_SECONDS && -8640000000000 <= from <= 8640000000000
    ensures CheckTimes(v, current)
         == if current.Some? && !(from - CLOCK_SKEW_SECONDS <= current.value < from + life) then Err(Expired)
            else Ok((from, from + life))
  {
    SafeIntegerRoundTrip(from);
    SafeIntegerRoundTrip(from + life);
  }

  /** What opening gives at `now` for a token issued at second `from` for `life` seconds. */
  function Window(r: Reference, from: int, life: int, nonce: Text, now: Date): Result<Claims, TokenError> {
    if now.Some? && !(from - CLOCK_SKEW_SECONDS <= Seconds(now).value < from + life) then Err(Expired)
    else Ok(Claims(Some(r), from + life, from, nonce))
  }

  lemma CheckView(v: View, r: Reference, from: int, life: int, now: Date)
    requires v.version == IntJson(1) && v.audience == Str(AudienceText()) && IsReference(v.nonce)
    requires v.issuedAt == IntJson(from) && v.expiresAt == IntJson(from + life) && ValidateReference(v) == Ok(Some(r))
    requires 1 <= life <= MAX_TTL_SECONDS && -8640000000000 <= from <= 8640000000000
    ensures CheckClaims(v, now) == Window(r, from, life, v.nonce.s, now)
  {
    TimesWritten(v, from, life, Seconds(now));
  }

  lemma CheckKnown(r: Reference, from: int, life: int, nonce: Text, now: Date)
    requires ValidReference(r) && IsReference(Str(nonce))
    requires 1 <= life <= MAX_TTL_SECONDS && -8640000000000 <= from <= 8640000000000
    ensures CheckClaims(ClaimsView(Some(r), IntJson(from), IntJson(from + life), nonce), now)
         == Window(r, from, life, nonce, now)
  {
    ValidationIsIdempotent(r, IntJson(from), IntJson(from + life), nonce);
    CheckView(ClaimsView(Some(r), IntJson(from), IntJson(from + life), nonce), r, from, life, now);
  }

  lemma OpenKnown(r: Reference, from: int, life: int, nonce: Text, now: Date)
    requires ValidReference(r) && IsReference(Str(nonce))
    requires 1 <= life <= MAX_TTL_SECONDS && -8640000000000 <= from <= 8640000000000
    ensures Supported(ClaimsJson(Some(r), from, life, nonce))
    ensures OpenText(Some(Stringify(ClaimsJson(Some(r), from, life, nonce))), now) == Window(r, from, life, nonce, now)
  {
    OpenWritten(Some(r), from, life, nonce, now);
    CheckKnown(r, from, life, nonce, now);
  }

  /** An unknown kind is sealed without a reference, and such claims never pass. */
  lemma OpenUnknown(from: int, life: int, nonce: Text, now: Date)
    ensures Supported(ClaimsJson(None, from, life, nonce))
    ensures OpenText(Some(Stringify(ClaimsJson(None, from, life, nonce))), now).Err?
  {
    OpenWritten(None, from, life, nonce, now);
  }

  lemma OpenSealed(text: Text, seal: Text -> Text, unseal: Text -> Option<Text>, now: Date)
    requires |Prefix() + seal(text)| <= MAX_TOKEN_LENGTH && unseal(seal(text)) == Some(text)
    ensures OpenToken(Prefix() + seal(text), unseal, now)
         == if seal(text) == [] then Err(InvalidToken) else OpenText(Some(text), now)
  {
    var token := Prefix() + seal(text);
    assert token[|Prefix()|..] == seal(text) && Prefix() <= token;
  }

  /** Opening a token opens the claims it was made with. */
  lemma OpenCreated(reference: View, seal: Text -> Text, unseal: Text -> Option<Text>, issued: Date, ttl: Json,
                    nonce: Json, token: Text,
                    now: Date)
    requires CreateToken(reference, seal, issued, ttl, nonce) == Ok(token)
    requires forall x :: unseal(seal(x)) == Some(x)
    ensures Sealable(reference, issued, ttl, nonce)
    ensures OpenToken(token, unseal, now)
         == if |token| == 21 then Err(InvalidToken)
            else OpenText(Some(Stringify(ClaimsOf(reference, issued, ttl, nonce))), now)
  {
    PlaintextWhenSealable(reference, issued, ttl, nonce);
    OpenSealed(Stringify(ClaimsOf(reference, issued, ttl, nonce)), seal, unseal, now);
  }

  /**
   * A sealed token opens from 30 seconds before it was issued until just before it expires, and says what was sealed.
   * A token of 21 units is its prefix alone: nothing was sealed into it.
   */
  lemma TokenOpensExactlyInItsWindow(reference: View, r: Reference, seal: Text -> Text, unseal: Text -> Option<Text>,
                                     issued: Date,
                                     ttl: Json, nonce: Json, token: Text, now: Date)
    requires ValidateReference(reference) == Ok(Some(r))
    requires CreateToken(reference, seal, issued, ttl, nonce) == Ok(token)
    requires forall x :: unseal(seal(x)) == Some(x)
    ensures Sealable(reference, issued, ttl, nonce)
    ensures |token| > 21 ==>
      OpenToken(token, unseal, now) == Window(r, Seconds(issued).value, SafeInteger(ttl).value, nonce.s, now)
    ensures |token| == 21 ==> OpenToken(token, unseal, now) == Err(InvalidToken)
  {
    OpenCreated(reference, seal, unseal, issued, ttl, nonce, token, now);
    SecondsRange(issued);
    ValidatedIsValid(reference, r);
    OpenKnown(r, Seconds(issued).value, SafeInteger(ttl).value, nonce.s, now);
  }

  /** A reference of unknown kind can be sealed, but the token never opens. */
  lemma UnknownKindNeverOpens(reference: View, seal: Text -> Text, unseal: Text -> Option<Text>, issued: Date,
                              ttl: Json, nonce: Json,
                              token: Text, now: Date)
    requires ValidateReference(reference) == Ok(None)
    requires CreateToken(reference, seal, issued, ttl, nonce) == Ok(token)
    requires forall x :: unseal(seal(x)) == Some(x)
    ensures OpenToken(token, unseal, now).Err?
  {
    OpenCreated(reference, seal, unseal, issued, ttl, nonce, token, now);
    OpenUnknown(Seconds(issued).value, SafeInteger(ttl).value, nonce.s, now);
  }

  /** Whatever the token, the moments at which it opens lie less than 930 seconds apart. */
  lemma OpenSpanIsBounded(token: Text, unseal: Text -> Option<Text>, early: Date, late: Date)
    requires early.Some? && late.Some?
    requires OpenToken(token, unseal, early).Ok? && OpenToken(token, unseal, late).Ok?
    ensures Seconds(late).value - Seconds(early).value < MAX_TTL_SECONDS + CLOCK_SKEW_SECONDS
    ensures OpenToken(token, unseal, early) == OpenToken(token, unseal, late)
  {
  }
}
