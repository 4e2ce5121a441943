# Stripe-Payment: users, authentication and subscription display

A Dafny model of the core of Stripe-Payment, a small subscription web app.
The app has an Express/MySQL backend and a React frontend. The model covers
the following parts:

- **The users table and its model functions** (`UserModel`). The table is a
  class `UserStore` holding a map from id to row. The schema's constraints
  are checked where the database checks them: NOT NULL, the column widths,
  the primary key, and the UNIQUE email under the column's collation.
  - `createUser` inserts a row.
  - `getUserByEmail` and `getUserById` read a row.
  - `updateUserSubscription` formats three dates and overwrites the billing
    columns of one row.
- **The MySQL date text** (`IsoDate`). A JavaScript Date becomes its
  `toISOString()` text, cut to 19 characters, with the `T` replaced by a
  space. The module covers ECMAScript's expanded six-digit years and a
  parser of the `YYYY-MM-DD HH:MM:SS` literal, so both round trips can be
  stated.
- **The registration and login handlers** (`UserController`). They run as
  methods over the same store. bcrypt and JWT are function parameters.
- **The header's active-menu test** (`Header`).
- **The zod schemas of the registration and login forms** (`Zod`,
  `RegisterForm`, `LoginForm`). A schema produces a list of issues, and the
  form shows the first issue on each field.
- **The cancel-subscription button** (`CancelSubscriptionButton`). This is
  its render guard, label, disabled rule and date text, plus the dialog
  state that `handleCancelSubscription` steps through.
- **The subscription status card** (`SubscriptionStatus`). This is the plan
  name looked up from a price id, the badge, the renewal date and the
  no-subscription card.

JavaScript values (`JsValues.JsValue`) are modelled with their own
semantics:

- truthiness;
- strict equality as equality of tagged values, so `true !== 1`;
- the conversion of a value to an object property key.

The driver binds `undefined` and `null` to SQL NULL, and booleans to 1 and 0.

The backend's Stripe routes (backend/routes/stripe.routes.js) import
`handleStripeWebhook` and `cancelSubscription`, but
backend/controllers/stripe.controller.js defines only
`createCheckoutSession`. So no webhook handling, trial reconciliation or
server-side cancellation exists in the code to model.

## Model

| member | source | states |
|---|---|---|
| UserModel.InsertRejection | backend/models/user.model.js:7-24 | When the INSERT is refused: with no refusal, name, email and password are present and within their column widths, a given verification token is within its 64 characters, and neither the id nor the email (under the collation) is taken. When every column is valid, a taken id gives a duplicate PRIMARY key, otherwise a taken email gives a duplicate email key. |
| UserModel.Bind | backend/models/user.model.js:115-125 | The driver binds undefined and null, and only those, to NULL. Strings, and only strings, become text, unchanged. Booleans become 1 and 0. |
| UserModel.NewRow | backend/models/user.model.js:8-23 | The inserted row holds the given id, name, email and password. A missing verification token or expiry is stored as NULL. email_verified is 0, the billing columns hold the schema's defaults, and created_at and updated_at are the insertion time. |
| UserModel.InsertKeepsKeys | backend/models/user.model.js:7-24 | An accepted insert keeps every row under its own id and every email unique under the collation. |
| UserModel.UserStore.constructor | backend/migrations/user.migration.js:3-31 | A freshly created table is empty and satisfies the key and uniqueness invariant. |
| UserModel.UserStore.CreateUser | backend/models/user.model.js:4-35 | On success: exactly one row is added under the fresh id, and the result carries id, name, email, email_verified false and the tokens, and no password. On refusal: the database's error is returned and the table is unchanged. The invariant is kept. |
| UserModel.UserStore.GetUserByEmail | backend/models/user.model.js:37-44 | A row is returned iff an email is given and some row's email matches it under the collation. The returned row is the stored row, and it is the only row that matches. A missing email (bound as NULL) matches nothing. |
| UserModel.UserStore.GetUserById | backend/models/user.model.js:46-59 | The result is null iff the id is unknown. Otherwise it is the stored row with every column except the password. |
| UserModel.FormatTimeArg | backend/models/user.model.js:75-100 | A non-Date value passes through unchanged. A valid Date becomes SqlDateTime of its fields, the 19-character ISO prefix with its separator made a space. An Invalid Date, and only an Invalid Date, makes the formatting throw. |
| UserModel.DateArgumentStoresLiteral | backend/models/user.model.js:80-85 | A Date with a four-digit year is stored as `YYYY-MM-DD HH:MM:SS`, which reads back as that Date without its milliseconds. |
| UserModel.SubscribedRow | backend/models/user.model.js:102-126 | Name, email, password, email_verified, the verification fields, has_used_trial and created_at are untouched. is_subscribed is 1 whatever the plan status. is_in_trial is 1 iff isInTrial is truthy, otherwise 0. The other billing columns hold the bound values, and last_payment_at holds NOW(). updated_at is either kept or set to NOW(). |
| UserModel.SubscribedRowIdempotent | backend/models/user.model.js:102-126 | Repeating the same update at the same moment changes nothing further. |
| UserModel.UserStore.UpdateUserSubscription | backend/models/user.model.js:61-137 | An Invalid Date throws "Invalid time value" before the query. An unknown id throws "No user found with ID: <id>". On either error the table is unchanged. Otherwise the result is true and exactly the row with that id is replaced by SubscribedRow. |
| IsoDate.ToIsoString | backend/models/user.model.js:81-82 | toISOString has 20 characters after the year. Its first `T` is the date/time separator right after `YYYY-MM-DD`, and it ends in `Z`. |
| IsoDate.MySqlForm | backend/models/user.model.js:83-84 | slice(0, 19) then replace('T', ' ') gives 19 characters. A text with no `T` in its first 19 characters is only cut. |
| IsoDate.SqlDateTime | backend/models/user.model.js:80-85 | A Date's MySQL text is the first 19 characters of its ISO text with the date/time separator turned into a space. |
| IsoDate.YearString | backend/models/user.model.js:81-82 | The year of toISOString: four digits for years 0 to 9999, otherwise a sign and six digits. |
| IsoDate.ReplaceFirst | backend/models/user.model.js:84 | `replace` with a character pattern keeps the length, and leaves a string without the character as it is. |
| IsoDate.ReplaceFirstChangesOnlyFrom | backend/models/user.model.js:84 | replace changes no character except an occurrence of the pattern, and that one only into the replacement. |
| IsoDate.ReplaceFirstAt | backend/models/user.model.js:84 | Only the first occurrence of the character is replaced. |
| IsoDate.PadValue | backend/models/user.model.js:81-82 | A zero-padded field reads back as the number it pads. |
| IsoDate.ValuePad | backend/models/user.model.js:81-82 | A string of digits is the zero-padding of its own value. |
| IsoDate.FormatsFourDigitYear | backend/models/user.model.js:80-85 | For years 0 to 9999, slice(0, 19) and replace('T', ' ') of the ISO text give exactly `YYYY-MM-DD HH:MM:SS`. |
| IsoDate.FormatsExpandedYear | backend/models/user.model.js:80-85 | For other years the 19 characters end after the minutes, so the formatted text has no seconds. How MySQL treats that text is not modelled. |
| IsoDate.ParseDateTime | backend/models/user.model.js:80-85 | The model's own strict reader of the `YYYY-MM-DD HH:MM:SS` literal, the inverse in the two round-trip lemmas. Only a text of exactly 19 characters reads as a literal. It is neither code of the repository nor MySQL's more lenient DATETIME parsing. |
| IsoDate.FormatThenParse | backend/models/user.model.js:80-85 | The formatted text of a four-digit-year Date reads back as that Date to the second. |
| IsoDate.ParseThenFormat | backend/models/user.model.js:80-85 | A literal that reads as a Date is exactly that Date's formatted text. |
| UserController.RegisterUser | backend/controllers/user.controller.js:6-32 | A missing password makes bcrypt throw and gives 500. An email already registered (under the collation) gives 400 "User already exists". Status 201 holds iff the insert is accepted, and then exactly one row holding the hash, never the plaintext, is added and the created record is returned. Any other outcome leaves the table unchanged. It is 400 exactly when the email is taken, and otherwise 500. The email uniqueness invariant is kept across registrations. |
| UserController.LoginUser | backend/controllers/user.controller.js:34-64 | An unknown or missing email gives 401 "Invalid email or password". A wrong password gives the identical 401. A missing password for a registered email gives 500. A match gives 200 "Login successful" with only id, name, email and the token signed for the id. |
| Header.IsActive | frontend/src/components/Header.jsx:13-28 | An active link always prefixes the pathname. "/" is active exactly on "/". |
| Header.RootActiveOnlyAtRoot | frontend/src/components/Header.jsx:15-27 | "/" is active exactly on the pathname "/". |
| Header.ActiveOnOwnPage | frontend/src/components/Header.jsx:20-22 | A path other than "/" is active on its own pathname. |
| Header.SegmentBoundaryRedundant | frontend/src/components/Header.jsx:21-25 | The segment-boundary disjunct holds only where one of the first two disjuncts holds. |
| Header.ActiveIffSameOrChild | frontend/src/components/Header.jsx:20-25 | A path not ending in "/" is active iff the pathname equals it or starts with it followed by "/". |
| Header.ActiveIffPrefix | frontend/src/components/Header.jsx:20-25 | A path ending in "/" (other than "/") is active iff the pathname starts with it. |
| Header.NeverOnShorterPath | frontend/src/components/Header.jsx:20-25 | A path other than "/" is never active on a shorter pathname. |
| Header.NotActiveOnHome | frontend/src/components/Header.jsx:20-25 | A non-empty path other than "/" is not active on "/". |
| Header.PartialSegmentIsNotActive | frontend/src/components/Header.jsx:21-25 | "/log" is not active on "/login", and "/login" is active on "/login/reset". |
| Zod.MinLength | frontend/src/components/custom-components/auth/RegisterForm.jsx:13-15 | `.min(n)` reports no issue iff the value has at least n characters, and otherwise reports its message on its field. |
| Zod.EmailIssues | frontend/src/components/custom-components/auth/RegisterForm.jsx:16-19 | The email field reports no issue iff the email is non-empty and well-formed. All its issues are on "email". |
| Zod.FirstError | frontend/src/components/custom-components/auth/RegisterForm.jsx:36 | The message shown under a field is that of the first issue on the field, and there is none iff no issue is on it. |
| Zod.NothingShownIffNoIssues | frontend/src/components/custom-components/auth/RegisterForm.jsx:36 | No field shows a message exactly when the schema reported no issue. |
| Zod.FirstErrorAppend | frontend/src/components/custom-components/auth/RegisterForm.jsx:12-29 | Issues of earlier checks take precedence over later ones on the same field. |
| Zod.ShownEmailMessage | frontend/src/components/custom-components/auth/RegisterForm.jsx:16-19 | An empty email shows "Email is required". A non-empty invalid one shows "Must be a valid email address". |
| RegisterForm.Issues | frontend/src/components/custom-components/auth/RegisterForm.jsx:12-29 | Every issue is on one of the four fields, and there are at most six. |
| RegisterForm.Refinement | frontend/src/components/custom-components/auth/RegisterForm.jsx:26-29 | The refinement reports nothing iff the two passwords are equal. Its issue is on confirmPassword. |
| RegisterForm.Accepts | frontend/src/components/custom-components/auth/RegisterForm.jsx:12-29 | Values are accepted exactly when no field shows an error. |
| RegisterForm.AcceptsIffAllRulesHold | frontend/src/components/custom-components/auth/RegisterForm.jsx:12-29 | The form is accepted iff the name has at least 2 characters, the email is valid, the password has at least 6 characters, the confirmation is non-empty, and the two passwords are equal. |
| RegisterForm.DefaultsRejected | frontend/src/components/custom-components/auth/RegisterForm.jsx:37-42 | The empty default values are not accepted. |
| RegisterForm.FirstErrorByCheck | frontend/src/components/custom-components/auth/RegisterForm.jsx:12-29 | The message on a field is looked for in the field checks in order, then in the refinement. |
| RegisterForm.ShownNameError | frontend/src/components/custom-components/auth/RegisterForm.jsx:13-15 | A name shorter than 2 characters shows "Name must be at least 2 characters", and otherwise there is no name error. |
| RegisterForm.ShownEmailError | frontend/src/components/custom-components/auth/RegisterForm.jsx:16-19 | The email error is "Email is required" when the email is empty, "Must be a valid email address" when it is invalid, and none otherwise. |
| RegisterForm.ShownPasswordError | frontend/src/components/custom-components/auth/RegisterForm.jsx:20-22 | A password shorter than 6 characters shows its message, and otherwise there is no password error. |
| RegisterForm.ShownConfirmError | frontend/src/components/custom-components/auth/RegisterForm.jsx:23-29 | An empty confirmation shows "Please confirm your password". Otherwise a mismatch shows "Passwords do not match" on confirmPassword. Otherwise there is no error. |
| LoginForm.Issues | frontend/src/components/custom-components/auth/LoginForm.jsx:12-20 | Every issue is on email or password, and there are at most three. |
| LoginForm.Accepts | frontend/src/components/custom-components/auth/LoginForm.jsx:12-20 | Values are accepted exactly when no field shows an error. |
| LoginForm.AcceptsIffAllRulesHold | frontend/src/components/custom-components/auth/LoginForm.jsx:12-20 | The form is accepted iff the email is valid and the password has at least 6 characters. Nothing else is required. |
| LoginForm.DefaultsRejected | frontend/src/components/custom-components/auth/LoginForm.jsx:29-32 | The empty default values are not accepted. |
| LoginForm.ShownEmailError | frontend/src/components/custom-components/auth/LoginForm.jsx:13-16 | An empty email shows "Email is required". A non-empty invalid email shows "Must be a valid email address". |
| LoginForm.ShownPasswordError | frontend/src/components/custom-components/auth/LoginForm.jsx:17-19 | A password shorter than 6 characters shows "Password must be at least 6 characters". |
| CancelSubscriptionButton.Renders | frontend/src/components/payment/CancelSubscriptionButton.jsx:22-26 | A rendered button is labelled "Cancel Subscription", and its trigger is enabled when idle. |
| CancelSubscriptionButton.ButtonLabel | frontend/src/components/payment/CancelSubscriptionButton.jsx:62-64 | The label is one of the two texts. It is "Subscription Ending" exactly when the trigger is disabled even when idle. |
| CancelSubscriptionButton.TriggerDisabled | frontend/src/components/payment/CancelSubscriptionButton.jsx:72 | The trigger is always disabled while loading. When idle it is disabled only for a canceled plan. |
| CancelSubscriptionButton.TriggerText | frontend/src/components/payment/CancelSubscriptionButton.jsx:74-82 | The trigger shows "Processing..." exactly while loading, and the label otherwise. |
| CancelSubscriptionButton.OnlyTheNumberOneRenders | frontend/src/components/payment/CancelSubscriptionButton.jsx:22-26 | The button renders exactly for a user whose is_subscribed is exactly the number 1 and whose plan status is other than 'canceled'. Without a user nothing renders, and `true` and "1" do not count as 1. |
| CancelSubscriptionButton.RenderedButton | frontend/src/components/payment/CancelSubscriptionButton.jsx:62-82 | Whenever the button renders, its label is "Cancel Subscription", so the "Subscription Ending" branch is unreachable. The trigger is disabled iff loading and shows "Processing..." while loading. |
| CancelSubscriptionButton.FormatDate | frontend/src/components/payment/CancelSubscriptionButton.jsx:51-59 | A missing or empty date reads 'N/A'. Any truthy date is passed to the locale formatter. |
| CancelSubscriptionButton.HandlerToasts | frontend/src/components/payment/CancelSubscriptionButton.jsx:28-47 | A failed cancel shows only the failure toast. A successful one shows the success toast first. The failure toast appears iff the cancel or the refresh failed. |
| CancelSubscriptionButton.CancelDialog.constructor | frontend/src/components/payment/CancelSubscriptionButton.jsx:16-26 | A rendered button starts neither loading nor open. |
| CancelSubscriptionButton.CancelDialog.ClickTrigger | frontend/src/components/payment/CancelSubscriptionButton.jsx:68-73 | A click opens the dialog unless the trigger is disabled. Nothing else changes. |
| CancelSubscriptionButton.CancelDialog.OpenChange | frontend/src/components/payment/CancelSubscriptionButton.jsx:85 | The dialog's own open and close requests set the open state. Nothing else changes. |
| CancelSubscriptionButton.CancelDialog.HandleCancelSubscription | frontend/src/components/payment/CancelSubscriptionButton.jsx:28-48 | Afterwards loading is false whether the call succeeded or failed. The dialog is closed only on success. One cancel request carries the user's id. The toasts are those of HandlerToasts. User data is refreshed once exactly when the cancel succeeded and a refresh was provided. |
| SubscriptionStatus.GetPlanName | frontend/src/pages/payment/SubscriptionStatus.jsx:72-80 | The name is one of the three plan names or "Custom Plan". It is "Custom Plan" iff the price id's property key is none of the three configured keys. |
| SubscriptionStatus.ConfiguredIdsNamed | frontend/src/pages/payment/SubscriptionStatus.jsx:73-77 | With three distinct configured ids, each maps to its own plan name. |
| SubscriptionStatus.UnsetIdMatchesMissingPriceId | frontend/src/pages/payment/SubscriptionStatus.jsx:73-79 | When the basic id is unset, a subscription without a price id is named "Basic Plan", because both convert to the key "undefined". |
| SubscriptionStatus.Badge | frontend/src/pages/payment/SubscriptionStatus.jsx:41-42 | The badge reads "Active" (variant default) iff planStatus is strictly 'active', and "Inactive" (variant outline) otherwise. |
| SubscriptionStatus.RenewalDate | frontend/src/pages/payment/SubscriptionStatus.jsx:53 | A falsy end date shows 'N/A'. Otherwise the formatted date is shown. |
| SubscriptionStatus.View | frontend/src/pages/payment/SubscriptionStatus.jsx:12-53 | The "You don't have an active subscription" card is shown iff there is no subscription. Otherwise the status card shows the plan name of the price id, the badge "Active" iff the status is strictly 'active' with variant default for Active and outline otherwise, and the renewal text of RenewalDate, which is 'N/A' for a falsy end date. |

## Left out

- Stripe: the checkout-session call is a single call to a remote API. The webhook, cancel and plan-change handlers are not in the code.
- bcrypt, JWT and mail sending are foreign libraries. bcrypt.hash, bcrypt.compare and generateJWT are function parameters; mail sending is not modelled.
- UUID generation and SQL `NOW()` are parameters (`newId`, `now`). The locale date formatting (`toLocaleDateString` and the shared `formatDate` helper) is a function parameter.
- A Date is represented by its UTC calendar fields. The conversion from a time value to those fields is not modelled.
- The SQL driver, the Express request/response plumbing, the axios calls and the DDL are not modelled as code. Only their effect on rows and responses is modelled.
- Requests run one at a time. The check-then-insert race in registerUser is not modelled; the UNIQUE email constraint is.
- The email format check of zod is an abstract predicate `isEmail`.
- String lengths count Dafny characters. JavaScript and MySQL count UTF-16 code units and characters.
- Numbers are integers. NaN, fractions and infinities are not modelled.
- Ids are compared exactly. Emails are compared under the column's collation, given as a function.
- The database's conversion of a bound value to a column's type (a text into a DATETIME or BOOLEAN column) is not modelled. Values are stored as bound.
- UserModel.UserStore.UpdateUserSubscription: the widths of the billing columns (VARCHAR(255), and VARCHAR(100) for the plan status) are not checked, so an over-long value is stored rather than refused.
- UserModel.UserStore.CreateUser: does not check that verification_token_expires is a valid DATETIME.
- Non-string JSON values in a request body are not modelled. A field is either a string or missing.
- SubscriptionStatus.GetPlanName: a price id that names an Object.prototype member (such as "toString") is not modelled.
- The authentication context provides neither `subscription` nor `refreshUserData`. Both are taken as inputs here (`View`'s subscription, `hasRefresh`).
- The intermediate `isLoading == true` state inside handleCancelSubscription is not observable from the method's contract. The confirm button's label and disabled state (CancelSubscriptionButton.jsx lines 109-115) are not modelled.
- The menu link rendering and the mobile sheet of the header are UI-only state.
