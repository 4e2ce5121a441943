/** The `users` table and the four model functions that read and write it:
    createUser, getUserByEmail, getUserById and updateUserSubscription.
    The table is a map from id to row; the row's columns and their defaults
    are those of the schema, and the schema's constraints (NOT NULL, column
    widths, the primary key and the UNIQUE email) are checked where the
    database checks them. */
module UserModel {
  import opened JsValues
  import opened IsoDate

  type UserId = string

  /** A value as the database stores it for a query parameter. */
  datatype SqlValue = SqlNull | SqlInt(i: int) | SqlText(s: string)

  /** How the driver binds a JavaScript value: undefined and null become
      NULL, booleans 1 and 0. */
  function Bind(v: JsValue): (r: SqlValue)
    ensures r == SqlNull <==> v == Undefined || v == Null
    ensures r.SqlText? <==> v.Str?
    ensures v.Str? ==> r == SqlText(v.s)
    ensures v.Bool? ==> r == SqlInt(if v.b then 1 else 0)
  {
    match v
    case Undefined => SqlNull
    case Null => SqlNull
    case Bool(b) => SqlInt(if b then 1 else 0)
    case Num(n) => SqlInt(n)
    case Str(s) => SqlText(s)
  }

  function BindOption(v: Option<string>): SqlValue
  {
    if v.Some? then SqlText(v.value) else SqlNull
  }

  /** The billing columns. BOOLEAN columns hold the integers 0 and 1. */
  datatype Billing = Billing(
    stripeCustomerId: SqlValue,
    stripeSubscriptionId: SqlValue,
    stripePriceId: SqlValue,
    trialStartsAt: SqlValue,
    trialEndsAt: SqlValue,
    isInTrial: int,
    hasUsedTrial: int,
    subscriptionEndsAt: SqlValue,
    isSubscribed: int,
    planStatus: SqlValue,
    lastPaymentAt: SqlValue)

  /** The column defaults of a freshly inserted row. */
  const NoBilling := Billing(SqlNull, SqlNull, SqlNull, SqlNull, SqlNull, 0, 0, SqlNull, 0, SqlNull, SqlNull)

  datatype UserRow = UserRow(
    id: UserId,
    name: string,
    email: string,
    password: string,
    emailVerified: int,
    verificationToken: SqlValue,
    verificationTokenExpires: SqlValue,
    billing: Billing,
    createdAt: string,
    updatedAt: string)

  /** A row as getUserById hands it out: every column except the password. */
  datatype PublicUser = PublicUser(
    id: UserId,
    name: string,
    email: string,
    emailVerified: int,
    verificationToken: SqlValue,
    verificationTokenExpires: SqlValue,
    billing: Billing,
    createdAt: string,
    updatedAt: string)

  function WithoutPassword(r: UserRow): PublicUser
  {
    PublicUser(r.id, r.name, r.email, r.emailVerified, r.verificationToken,
               r.verificationTokenExpires, r.billing, r.createdAt, r.updatedAt)
  }

  /** What createUser returns: no password, and email_verified false. */
  datatype CreatedUser = CreatedUser(
    id: UserId,
    name: string,
    email: string,
    emailVerified: bool,
    verificationToken: Option<string>,
    verificationTokenExpires: Option<string>)

  datatype StoreError =
    | ColumnCannotBeNull(column: string)
    | DataTooLong(column: string)
    | DuplicateEntry(key: string)
    | RangeError(message: string)
    | NoUserFound(message: string)

  /** Column widths of the schema: CHAR(36), VARCHAR(255), VARCHAR(64). */
  const IdWidth := 36
  const TextWidth := 255
  const TokenWidth := 64

  /** Some row's email equals `email` under the column's collation. */
  predicate EmailTaken(rows: map<UserId, UserRow>, collate: string -> string, email: string)
  {
    exists id :: id in rows && collate(rows[id].email) == collate(email)
  }

  /** The UNIQUE constraint on the email column. */
  ghost predicate UniqueEmails(rows: map<UserId, UserRow>, collate: string -> string)
  {
    forall a, b :: a in rows && b in rows && collate(rows[a].email) == collate(rows[b].email) ==> a == b
  }

  /** A row is stored under its own id. */
  ghost predicate KeyedById(rows: map<UserId, UserRow>)
  {
    forall id :: id in rows ==> rows[id].id == id
  }

  /** The error the database raises for createUser's INSERT, if any: a NULL
      or over-long value in column order, then a duplicate primary key, then
      a duplicate email. */
  function InsertRejection(rows: map<UserId, UserRow>, collate: string -> string, id: UserId,
                           name: Option<string>, email: Option<string>, password: Option<string>,
                           verificationToken: Option<string>): (e: Option<StoreError>)
    ensures e.None? ==> name.Some? && email.Some? && password.Some?
    ensures e.None? ==> id !in rows && !EmailTaken(rows, collate, email.value)
    ensures e.None? ==> |id| <= IdWidth && |name.value| <= TextWidth && |email.value| <= TextWidth && |password.value| <= TextWidth
    ensures e.None? ==> verificationToken.None? || |verificationToken.value| <= TokenWidth
    ensures name.Some? && email.Some? && password.Some? && |id| <= IdWidth
            && |name.value| <= TextWidth && |email.value| <= TextWidth && |password.value| <= TextWidth
            && (verificationToken.None? || |verificationToken.value| <= TokenWidth) ==>
              e == (if id in rows then Some(DuplicateEntry("PRIMARY"))
                    else if EmailTaken(rows, collate, email.value) then Some(DuplicateEntry("email"))
                    else None)
  {
    if |id| > IdWidth then Some(DataTooLong("id"))
    else if name.None? then Some(ColumnCannotBeNull("name"))
    else if |name.value| > TextWidth then Some(DataTooLong("name"))
    else if email.None? then Some(ColumnCannotBeNull("email"))
    else if |email.value| > TextWidth then Some(DataTooLong("email"))
    else if password.None? then Some(ColumnCannotBeNull("password"))
    else if |password.value| > TextWidth then Some(DataTooLong("password"))
    else if verificationToken.Some? && |verificationToken.value| > TokenWidth then Some(DataTooLong("verification_token"))
    else if id in rows then Some(DuplicateEntry("PRIMARY"))
    else if EmailTaken(rows, collate, email.value) then Some(DuplicateEntry("email"))
    else None
  }

  /** The row createUser inserts: the given columns, defaults for the rest. */
  function NewRow(id: UserId, name: string, email: string, password: string,
                  verificationToken: Option<string>, verificationTokenExpires: Option<string>,
                  now: string): (r: UserRow)
    ensures r.id == id && r.name == name && r.email == email && r.password == password
    ensures r.emailVerified == 0 && r.billing == NoBilling
    // a missing token or expiry is stored as NULL
    ensures r.verificationToken == BindOption(verificationToken)
    ensures r.verificationTokenExpires == BindOption(verificationTokenExpires)
    // created_at and updated_at default to CURRENT_TIMESTAMP
    ensures r.createdAt == now && r.updatedAt == now
  {
    UserRow(id, name, email, password, 0, BindOption(verificationToken),
            BindOption(verificationTokenExpires), NoBilling, now, now)
  }

  /** An insert the database accepts keeps every row under its own id and
      every email unique under the collation. */
  lemma InsertKeepsKeys(rows: map<UserId, UserRow>, collate: string -> string, id: UserId,
                        name: Option<string>, email: Option<string>, password: Option<string>,
                        verificationToken: Option<string>, verificationTokenExpires: Option<string>, now: string)
    requires KeyedById(rows) && UniqueEmails(rows, collate)
    requires InsertRejection(rows, collate, id, name, email, password, verificationToken).None?
    ensures KeyedById(rows[id := NewRow(id, name.value, email.value, password.value,
                                        verificationToken, verificationTokenExpires, now)])
    ensures UniqueEmails(rows[id := NewRow(id, name.value, email.value, password.value,
                                           verificationToken, verificationTokenExpires, now)], collate)
  {
    var row := NewRow(id, name.value, email.value, password.value, verificationToken, verificationTokenExpires, now);
    var next := rows[id := row];
    forall a, b | a in next && b in next && collate(next[a].email) == collate(next[b].email)
      ensures a == b
    {
    }
  }

  /** The fields updateUserSubscription destructures from its argument.
      A date field is a Date object or some other value. */
  datatype TimeArg = DateArg(date: Date) | NotDate(value: JsValue)

  datatype SubscriptionData = SubscriptionData(
    stripeCustomerId: JsValue,
    stripeSubscriptionId: JsValue,
    stripePriceId: JsValue,
    planStatus: JsValue,
    subscriptionEndsAt: TimeArg,
    trialStartsAt: TimeArg,
    trialEndsAt: TimeArg,
    isInTrial: JsValue)

  /** The `instanceof Date` branch: a Date becomes its MySQL text, an
      Invalid Date makes toISOString throw, anything else passes through. */
  function FormatTimeArg(t: TimeArg): (r: Result<JsValue, StoreError>)
    ensures t.NotDate? ==> r == Ok(t.value)
    ensures r.Err? <==> t == DateArg(InvalidDate)
    ensures t.DateArg? && t.date.ValidDate? ==> r == Ok(Str(SqlDateTime(t.date.fields)))
  {
    match t
    case NotDate(v) => Ok(v)
    case DateArg(d) =>
      if d.InvalidDate? then Err(RangeError("Invalid time value"))
      else Ok(Str(SqlDateTime(d.fields)))
  }

  /** A Date whose year has four digits is stored as `YYYY-MM-DD HH:MM:SS`,
      and that text reads back as the Date to the second. */
  lemma DateArgumentStoresLiteral(f: Fields)
    requires 0 <= f.year <= 9999
    ensures FormatTimeArg(DateArg(ValidDate(f))) == Ok(Str(DateTimeLiteral(f)))
    ensures ParseDateTime(FormatTimeArg(DateArg(ValidDate(f))).value.s) == Some(f.(millisecond := 0))
  {
    FormatsFourDigitYear(f);
    FormatThenParse(f);
  }

  predicate DatesFormattable(data: SubscriptionData)
  {
    && FormatTimeArg(data.subscriptionEndsAt).Ok?
    && FormatTimeArg(data.trialStartsAt).Ok?
    && FormatTimeArg(data.trialEndsAt).Ok?
  }

  /** The row after updateUserSubscription's UPDATE: the SET list of the
      query, with `updated_at` bumped (ON UPDATE CURRENT_TIMESTAMP) only when
      some column actually changed. */
  function SubscribedRow(row: UserRow, data: SubscriptionData, now: string): (r: UserRow)
    requires DatesFormattable(data)
    // columns the query does not name keep their values
    ensures r.id == row.id && r.name == row.name && r.email == row.email && r.password == row.password
    ensures r.emailVerified == row.emailVerified
    ensures r.verificationToken == row.verificationToken
    ensures r.verificationTokenExpires == row.verificationTokenExpires
    ensures r.billing.hasUsedTrial == row.billing.hasUsedTrial
    ensures r.createdAt == row.createdAt
    // is_subscribed is forced to 1 whatever the plan status
    ensures r.billing.isSubscribed == 1
    // is_in_trial is 1 exactly when isInTrial is truthy, otherwise 0
    ensures r.billing.isInTrial == 1 <==> Truthy(data.isInTrial)
    ensures r.billing.isInTrial == 0 <==> !Truthy(data.isInTrial)
    ensures r.billing.planStatus == Bind(data.planStatus)
    ensures r.billing.stripeCustomerId == Bind(data.stripeCustomerId)
    ensures r.billing.stripeSubscriptionId == Bind(data.stripeSubscriptionId)
    ensures r.billing.stripePriceId == Bind(data.stripePriceId)
    ensures r.billing.subscriptionEndsAt == Bind(FormatTimeArg(data.subscriptionEndsAt).value)
    ensures r.billing.trialStartsAt == Bind(FormatTimeArg(data.trialStartsAt).value)
    ensures r.billing.trialEndsAt == Bind(FormatTimeArg(data.trialEndsAt).value)
    ensures r.billing.lastPaymentAt == SqlText(now)
    ensures r.updatedAt == row.updatedAt || r.updatedAt == now
  {
    var billing := row.billing.(
      stripeCustomerId := Bind(data.stripeCustomerId),
      stripeSubscriptionId := Bind(data.stripeSubscriptionId),
      stripePriceId := Bind(data.stripePriceId),
      planStatus := Bind(data.planStatus),
      subscriptionEndsAt := Bind(FormatTimeArg(data.subscriptionEndsAt).value),
      isSubscribed := 1,
      trialStartsAt := Bind(FormatTimeArg(data.trialStartsAt).value),
      trialEndsAt := Bind(FormatTimeArg(data.trialEndsAt).value),
      isInTrial := if Truthy(data.isInTrial) then 1 else 0,
      lastPaymentAt := SqlText(now));
    if row.(billing := billing) == row then row else row.(billing := billing, updatedAt := now)
  }

  /** Replaying the same update at the same moment leaves the row as one
      update left it. */
  lemma SubscribedRowIdempotent(row: UserRow, data: SubscriptionData, now: string)
    requires DatesFormattable(data)
    ensures SubscribedRow(SubscribedRow(row, data, now), data, now) == SubscribedRow(row, data, now)
  {
  }

  class UserStore {
    /** The email column's collation: two emails compare equal when their
        collation keys are equal. */
    const collate: string -> string
    var rows: map<UserId, UserRow>

    ghost predicate Valid()
      reads this
    {
      KeyedById(rows) && UniqueEmails(rows, collate)
    }

    constructor(collate: string -> string)
      ensures Valid()
      ensures this.collate == collate && rows == map[]
    {
      this.collate := collate;
      rows := map[];
    }

    /** createUser: INSERT one row with a new id; the database refuses it on
        a constraint violation. */
    method CreateUser(id: UserId, name: Option<string>, email: Option<string>, password: Option<string>,
                      verificationToken: Option<string>, verificationTokenExpires: Option<string>,
                      now: string)
      returns (r: Result<CreatedUser, StoreError>)
      requires Valid()
      modifies this
      ensures Valid()
      ensures r.Err? <==> InsertRejection(old(rows), collate, id, name, email, password, verificationToken).Some?
      ensures r.Err? ==> r.error == InsertRejection(old(rows), collate, id, name, email, password, verificationToken).value
      ensures r.Err? ==> rows == old(rows)
      ensures r.Ok? ==> id !in old(rows) && |rows| == |old(rows)| + 1
      ensures r.Ok? ==> rows == old(rows)[id := NewRow(id, name.value, email.value, password.value,
                                                       verificationToken, verificationTokenExpires, now)]
      ensures r.Ok? ==> r.value == CreatedUser(id, name.value, email.value, false,
                                               verificationToken, verificationTokenExpires)
    {
      var rejection := InsertRejection(rows, collate, id, name, email, password, verificationToken);
      if rejection.Some? {
        return Err(rejection.value);
      }
      var row := NewRow(id, name.value, email.value, password.value,
                        verificationToken, verificationTokenExpires, now);
      InsertKeepsKeys(rows, collate, id, name, email, password, verificationToken, verificationTokenExpires, now);
      rows := rows[id := row];
      r := Ok(CreatedUser(id, name.value, email.value, false, verificationToken, verificationTokenExpires));
    }

    /** getUserByEmail: the row whose email matches, or nothing. A missing
        email is bound as NULL, and `email = NULL` matches no row. */
    method GetUserByEmail(email: Option<string>) returns (r: Option<UserRow>)
      requires Valid()
      ensures r.Some? <==> email.Some? && EmailTaken(rows, collate, email.value)
      ensures r.Some? ==> r.value.id in rows && rows[r.value.id] == r.value
      ensures r.Some? ==> collate(r.value.email) == collate(email.value)
      ensures r.Some? ==> forall id :: id in rows && collate(rows[id].email) == collate(email.value) ==> id == r.value.id
    {
      if email.None? || !EmailTaken(rows, collate, email.value) {
        return None;
      }
      var id :| id in rows && collate(rows[id].email) == collate(email.value);
      r := Some(rows[id]);
    }

    /** getUserById: the row without its password, or null. */
    method GetUserById(id: UserId) returns (r: Option<PublicUser>)
      ensures r.None? <==> id !in rows
      ensures r.Some? ==> r.value == WithoutPassword(rows[id])
    {
      if id !in rows {
        return None;
      }
      r := Some(WithoutPassword(rows[id]));
    }

    /** updateUserSubscription: format the three dates, then overwrite the
        billing columns of the row with this id. An Invalid Date throws
        before the query; no matching row throws after it. Either way the
        table is unchanged. */
    method UpdateUserSubscription(userId: UserId, data: SubscriptionData, now: string)
      returns (r: Result<bool, StoreError>)
      requires Valid()
      modifies this
      ensures Valid()
      ensures !DatesFormattable(data) ==> r == Err(RangeError("Invalid time value"))
      ensures DatesFormattable(data) && userId !in old(rows) ==>
                r == Err(NoUserFound("No user found with ID: " + userId))
      ensures r.Err? ==> rows == old(rows)
      ensures r.Ok? <==> DatesFormattable(data) && userId in old(rows)
      ensures r.Ok? ==> r.value == true
      ensures r.Ok? ==> rows == old(rows)[userId := SubscribedRow(old(rows)[userId], data, now)]
    {
      var formattedSubEnd := FormatTimeArg(data.subscriptionEndsAt);
      if formattedSubEnd.Err? {
        return Err(formattedSubEnd.error);
      }
      var formattedTrialStart := FormatTimeArg(data.trialStartsAt);
      if formattedTrialStart.Err? {
        return Err(formattedTrialStart.error);
      }
      var formattedTrialEnd := FormatTimeArg(data.trialEndsAt);
      if formattedTrialEnd.Err? {
        return Err(formattedTrialEnd.error);
      }
      if userId !in rows {
        return Err(NoUserFound("No user found with ID: " + userId));
      }
      rows := rows[userId := SubscribedRow(rows[userId], data, now)];
      r := Ok(true);
    }
  }
}
