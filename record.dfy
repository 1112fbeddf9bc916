/**
 * One record of the backfill: the stored legacy URI is decrypted when encryption is on,
 * handed to the provisioning-URI decoder, and the decoded token is mapped onto the six
 * typed columns, the secret re-encrypted when encryption is on.
 */
module Record {
  import opened Wrappers
  import opened Schema

  const OTP_TYPE := "otp_type"
  const SECRET := "secret"
  const ALGORITHM := "algorithm"
  const DIGITS := "digits"
  const PERIOD := "period"
  const COUNTER := "counter"
  const URI := "uri"
  const LEGACY_URI := "legacy_uri"
  const ACCOUNT := "account"

  /** The six columns the migration adds and the backfill writes. */
  const TYPED_COLUMNS: set<string> := {OTP_TYPE, SECRET, ALGORITHM, DIGITS, PERIOD, COUNTER}

  /** The column names the migration refers to are pairwise distinct. */
  lemma ColumnNamesDistinct()
    ensures URI !in TYPED_COLUMNS && LEGACY_URI !in TYPED_COLUMNS && ACCOUNT !in TYPED_COLUMNS
    ensures URI != LEGACY_URI && ACCOUNT != URI && ACCOUNT != LEGACY_URI
    ensures PERIOD != URI && COUNTER != URI && PERIOD != ACCOUNT && COUNTER != ACCOUNT
    ensures TYPED_COLUMNS == {OTP_TYPE, SECRET, ALGORITHM, DIGITS} + {PERIOD, COUNTER}
    ensures PERIOD !in {OTP_TYPE, SECRET, ALGORITHM, DIGITS} && COUNTER !in {OTP_TYPE, SECRET, ALGORITHM, DIGITS}
  {
  }

  /**
   * What the backfill reads from a decoded OTP token: whether its class is exactly the TOTP
   * class, its secret, its digest name, its digit count, and its `period` and `counter`
   * parameters when it has them.
   */
  datatype Token = Token(
    isTotp: bool,
    secret: string,
    digest: string,
    digits: int,
    period: Option<int>,
    counter: Option<int>)

  /** The stage of a record's processing whose exception made the loop skip the record. */
  datatype Fault = DecryptionFailed | DecodingFailed | EncryptionFailed | UpdateRejected

  /**
   * The collaborators of one run. Each returns None where the real call throws an Exception.
   * `decrypt` and `decode` receive whatever the legacy column holds; `rejects` says whether the
   * storage engine refuses the update of row `id` with the given fields.
   */
  datatype Env = Env(
    useEncryption: bool,
    decrypt: Cell -> Option<string>,
    decode: Cell -> Option<Token>,
    encrypt: string -> Option<string>,
    rejects: (int, Row) -> bool)

  /** The value written to `otp_type`: "totp" for a TOTP token, "hotp" for any other. */
  function OtpTypeName(t: Token): (s: string)
    ensures s == "totp" || s == "hotp"
    ensures s == "totp" <==> t.isTotp
  {
    if t.isTotp then "totp" else "hotp"
  }

  /** A `period` or `counter` cell: the parameter when the token has it, NULL otherwise. */
  function ParameterCell(p: Option<int>): (c: Cell)
    ensures p.None? <==> c.None?
    ensures p.Some? ==> c == Some(Int(p.value))
  {
    match p
    case Some(n) => Some(Int(n))
    case None => None
  }

  /** The fields written for a token, with `secret` the (possibly encrypted) secret to store. */
  function TokenFields(t: Token, secret: string): (r: Row)
    ensures r.Keys == TYPED_COLUMNS
    ensures r[OTP_TYPE] == Some(Text("totp")) || r[OTP_TYPE] == Some(Text("hotp"))
    ensures r[OTP_TYPE] == Some(Text("totp")) <==> t.isTotp
    ensures r[SECRET] == Some(Text(secret))
    ensures r[ALGORITHM] == Some(Text(t.digest)) && r[DIGITS] == Some(Int(t.digits))
    ensures r[PERIOD] == None <==> t.period.None?
    ensures t.period.Some? ==> r[PERIOD] == Some(Int(t.period.value))
    ensures r[COUNTER] == None <==> t.counter.None?
    ensures t.counter.Some? ==> r[COUNTER] == Some(Int(t.counter.value))
  {
    map[OTP_TYPE := Some(Text(OtpTypeName(t))),
        SECRET := Some(Text(secret)),
        ALGORITHM := Some(Text(t.digest)),
        DIGITS := Some(Int(t.digits)),
        PERIOD := ParameterCell(t.period),
        COUNTER := ParameterCell(t.counter)]
  }

  /** The provisioning URI handed to the decoder: decrypted when encryption is on. */
  function Plaintext(env: Env, legacy: Cell): (r: Option<Cell>)
    ensures !env.useEncryption ==> r == Some(legacy)
    ensures env.useEncryption && env.decrypt(legacy).None? ==> r.None?
    ensures env.useEncryption && env.decrypt(legacy).Some? ==> r == Some(Some(Text(env.decrypt(legacy).value)))
  {
    if !env.useEncryption then Some(legacy)
    else match env.decrypt(legacy)
      case Some(p) => Some(Some(Text(p)))
      case None => None
  }

  /** The secret to store: encrypted when encryption is on. */
  function StoredSecret(env: Env, t: Token): (r: Option<string>)
    ensures !env.useEncryption ==> r == Some(t.secret)
    ensures env.useEncryption ==> r == env.encrypt(t.secret)
  {
    if env.useEncryption then env.encrypt(t.secret) else Some(t.secret)
  }

  /**
   * The body of one loop iteration for row `id` whose legacy column holds `legacy`: the fields
   * the update writes, or the stage that threw.
   */
  function Transform(env: Env, id: int, legacy: Cell): (r: Result<Row, Fault>)
    ensures r == Failure(DecryptionFailed) <==> env.useEncryption && env.decrypt(legacy).None?
    ensures r == Failure(DecodingFailed) <==>
      Plaintext(env, legacy).Some? && env.decode(Plaintext(env, legacy).value).None?
    ensures r == Failure(EncryptionFailed) <==>
      Plaintext(env, legacy).Some? && env.decode(Plaintext(env, legacy).value).Some? &&
      StoredSecret(env, env.decode(Plaintext(env, legacy).value).value).None?
    ensures r.Success? ==> r.value.Keys == TYPED_COLUMNS
    ensures r.Success? ==> r.value[OTP_TYPE] == Some(Text("totp")) || r.value[OTP_TYPE] == Some(Text("hotp"))
    ensures r.Success? ==> r.value[SECRET].Some? && r.value[ALGORITHM].Some? && r.value[DIGITS].Some?
  {
    match Plaintext(env, legacy)
    case None => Failure(DecryptionFailed)
    case Some(uri) =>
      match env.decode(uri)
      case None => Failure(DecodingFailed)
      case Some(token) =>
        match StoredSecret(env, token)
        case None => Failure(EncryptionFailed)
        case Some(secret) =>
          var fields := TokenFields(token, secret);
          if env.rejects(id, fields) then Failure(UpdateRejected) else Success(fields)
  }

  /** Whether the loop logs and skips row `id` whose legacy column holds `legacy`. */
  predicate Skips(env: Env, id: int, legacy: Cell) {
    Transform(env, id, legacy).Failure?
  }

  /**
   * Without encryption the stored URI is decoded as it is and the plain secret is written;
   * algorithm, digits, period and counter come from the token unchanged.
   */
  lemma TransformPlain(env: Env, id: int, legacy: Cell)
    requires !env.useEncryption
    ensures Transform(env, id, legacy).Success? <==>
      env.decode(legacy).Some? && !env.rejects(id, TokenFields(env.decode(legacy).value, env.decode(legacy).value.secret))
    ensures Transform(env, id, legacy).Success? ==>
      Transform(env, id, legacy).value == TokenFields(env.decode(legacy).value, env.decode(legacy).value.secret)
  {
  }

  /**
   * With encryption the stored URI is decrypted before decoding and the written secret is
   * the encryption of the token's secret.
   */
  lemma TransformEncrypted(env: Env, id: int, legacy: Cell)
    requires env.useEncryption
    ensures Transform(env, id, legacy).Success? <==>
      && env.decrypt(legacy).Some?
      && env.decode(Some(Text(env.decrypt(legacy).value))).Some?
      && var token := env.decode(Some(Text(env.decrypt(legacy).value))).value;
      && env.encrypt(token.secret).Some?
      && !env.rejects(id, TokenFields(token, env.encrypt(token.secret).value))
    ensures Transform(env, id, legacy).Success? ==>
      var token := env.decode(Some(Text(env.decrypt(legacy).value))).value;
      Transform(env, id, legacy).value == TokenFields(token, env.encrypt(token.secret).value)
  {
  }

  /**
   * Row `row` after the iteration for `id`: on success the update overwrites the six typed
   * cells; on a skip the row is left as it was.
   */
  function BackfillRow(env: Env, id: int, row: Row): (r: Row)
    requires LEGACY_URI in row
    ensures r.Keys == if Skips(env, id, row[LEGACY_URI]) then row.Keys else row.Keys + TYPED_COLUMNS
    ensures Skips(env, id, row[LEGACY_URI]) ==> r == row
    ensures !Skips(env, id, row[LEGACY_URI]) ==>
      forall c :: c in TYPED_COLUMNS ==> r[c] == Transform(env, id, row[LEGACY_URI]).value[c]
    ensures forall c :: c in row && c !in TYPED_COLUMNS ==> r[c] == row[c]
  {
    match Transform(env, id, row[LEGACY_URI])
    case Success(fields) => row + fields
    case Failure(_) => row
  }

  /** On a row that already has the typed columns, the backfill adds no column. */
  lemma BackfillRowKeys(env: Env, id: int, row: Row)
    requires LEGACY_URI in row && TYPED_COLUMNS <= row.Keys
    ensures BackfillRow(env, id, row).Keys == row.Keys
  {
    UnionOfSubset(row.Keys, TYPED_COLUMNS);
  }

  /** The iteration leaves `otp_type` as it was or writes "totp" or "hotp" into it. */
  lemma BackfillRowOtpType(env: Env, id: int, row: Row)
    requires LEGACY_URI in row && OTP_TYPE in row
    ensures BackfillRow(env, id, row)[OTP_TYPE] in {row[OTP_TYPE], Some(Text("totp")), Some(Text("hotp"))}
  {
    assert OTP_TYPE in TYPED_COLUMNS;
  }

  /** The legacy URI is never written by the backfill. */
  lemma LegacyUriUntouched(env: Env, id: int, row: Row)
    requires LEGACY_URI in row
    ensures LEGACY_URI in BackfillRow(env, id, row)
    ensures BackfillRow(env, id, row)[LEGACY_URI] == row[LEGACY_URI]
  {
    assert LEGACY_URI !in TYPED_COLUMNS;
  }

  /**
   * Running the iteration a second time on a row rewrites no cell other than `secret`: the
   * second pass decodes the same legacy URI again. Without encryption it rewrites nothing.
   */
  lemma BackfillRowIdempotent(env: Env, id: int, row: Row)
    requires LEGACY_URI in row
    ensures LEGACY_URI in BackfillRow(env, id, row)
    ensures var once := BackfillRow(env, id, row);
      && BackfillRow(env, id, once).Keys == once.Keys
      && forall c :: c in once && c != SECRET ==> BackfillRow(env, id, once)[c] == once[c]
    ensures !env.useEncryption ==> BackfillRow(env, id, BackfillRow(env, id, row)) == BackfillRow(env, id, row)
  {
    LegacyUriUntouched(env, id, row);
    assert BackfillRow(env, id, BackfillRow(env, id, row)) == BackfillRow(env, id, row);
  }
}
