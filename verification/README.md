# Seguro Tarifa: quote calculator and session flag, in Dafny

This project models the two parts of the Seguro Tarifa web front end that carry
logic, and proves properties of them.

* **The premium quote calculator** (`src/pages/Calculator.tsx`). A form has four
  text fields: name, age, insurance type and coverage. `handleChange` replaces one
  field. `calculateQuote` refuses a form with an empty field. Otherwise it parses
  age and coverage with `parseInt`, takes 1% of the coverage, and applies an age
  factor: x1.5 under 25, x1.8 over 60. It then applies a type factor: vida x1.2,
  salud x1.5, auto x1.3, hogar x0.9. It rounds to the cent and stores the quote.
  `resetForm` restores the defaults.
  Every factor is a whole number of tenths, so the model states the rule in exact
  integers. The annual premium in cents is `coverage * A * T / 100`, rounded half
  up as `Math.round` does, with `A` in {10, 15, 18} and `T` in {9, 10, 12, 13, 15}.
  `parseInt` is modelled as ECMAScript defines it for a call without a radix. It
  skips leading white space, reads one optional sign, switches to radix 16 after
  "0x", and reads the longest digit prefix. When no digit follows, the result is
  NaN, written `None`. An age that gives NaN takes neither age branch. A coverage
  that gives NaN produces a NaN quote, which the page still stores.
* **The session flag** (`src/hooks/useAuth.tsx`, `src/components/ProtectedRoute.tsx`,
  `src/pages/Index.tsx`). The key `"isAuthenticated"` in local storage is the
  whole session. Local storage is a `map<string, string>` field of a `Browser`
  object. That object also records the path that navigation last went to.
  - `AuthProvider` starts with `isAuthenticated` false. On mount it reads the flag.
    Its login writes `"true"` when its timer fires. Its logout removes the key and
    goes to "/".
  - The route guard is a pure decision over the stored value.
  - The login page's e-mail input has type "email", so the browser refuses a
    submission whose non-empty e-mail is not a valid address before the page's
    handler runs. The handler then checks that both fields are filled and sets `isLoading`. It then
    schedules a step that writes the flag and goes to "/dashboard".
  - Each 1500 ms timer is an explicit `CompleteLogin` step. It may run only after
    its timer was started.
  - The login page writes local storage directly and never calls the provider's
    `login`. So the provider's `isAuthenticated` changes only on its next mount.
    The guard reads storage itself, so it admits the user at once.

Modules: `Wrappers` (Option, Result), `JsParseInt`, `Pricing`, `QuoteCalculator`
(the `Calculator` class), `WebStorage` (the `Browser` class), `Auth` (the
`AuthProvider` class and `UseAuth`), `RouteGuard`, and `Login` (the `LoginPage`
class).

Three behaviours of the code that a reader might not expect, all kept by the
model:
- The insurance type is any string, not a closed enumeration. An unknown type
  gets no factor.
- The coverage is read with `parseInt`, so "1500.75" is priced as 1500.
- A coverage that does not parse is not rejected. It yields a NaN quote.

## Model

| member | source | states |
|---|---|---|
| `JsParseInt.TrimStart` | src/pages/Calculator.tsx:38-39 | the text parseInt reads is the input without a prefix made only of ECMAScript white space, and it does not start with white space |
| `JsParseInt.DigitPrefixLength` | src/pages/Calculator.tsx:38-39 | parseInt reads the longest prefix of digits: all of it are digits and the next character is not |
| `JsParseInt.ParseIntDecimalString` | src/pages/Calculator.tsx:38-39 | round trip: parsing the decimal text of any integer, negative ones included, gives that integer back |
| `JsParseInt.ParseIntDecimalPrefix` | src/pages/Calculator.tsx:38-39 | text after the digits is ignored ("30.5" reads 30, "1e5" reads 1), unless it continues the digits or, after "0", starts a hexadecimal "x" |
| `JsParseInt.ParseInt` | src/pages/Calculator.tsx:38-39 | `parseInt` with no radix: NaN exactly when no digit follows the white space, the sign and any "0x" prefix; a number read after '-' is not positive, any other is not negative |
| `Pricing.RoundHalfUp` | src/pages/Calculator.tsx:66 | Math.round of num/den is within half a unit of it, a tie going up |
| `Pricing.RoundHalfUpUnique` | src/pages/Calculator.tsx:66 | only one integer meets that bound, so the rounding is determined by it |
| `Pricing.AnnualPremiumCents` | src/pages/Calculator.tsx:41-66 | the annual premium is the cent nearest to coverage x 1% x age factor x type factor, a tie going up |
| `Pricing.QuotePremium` | src/pages/Calculator.tsx:41-66 | the source's step-by-step multiplications, done exactly, give the rounded premium of the closed-form rule |
| `Pricing.AgeFactor` | src/pages/Calculator.tsx:44-48 | x1.5 if and only if age < 25, x1.8 if and only if age > 60, no factor if and only if 25 <= age <= 60 (both ends included); NaN gets no factor |
| `Pricing.UnparsedAgeHasNoFactor` | src/pages/Calculator.tsx:44-48 | an age that parsed to NaN is priced as any age from 25 to 60 |
| `Pricing.TypeFactor` | src/pages/Calculator.tsx:51-64 | vida 1.2, salud 1.5, auto 1.3, hogar 0.9; the premium is left unchanged if and only if the type is none of these four |
| `Pricing.HomeMidAge` | src/pages/Calculator.tsx:41-66 | home insurance for ages 25 to 60 costs 0.9% of the coverage, rounded to the cent |
| `Pricing.WorkedQuotes` | src/pages/Calculator.tsx:41-66 | 30/auto/100000 gives 1300.00, 20/salud/50000 gives 1125.00, 65/hogar/200000 gives 3240.00 |
| `QuoteCalculator.FormData.With` | src/pages/Calculator.tsx:22-24 | the named field takes the new value and every other field keeps its value |
| `QuoteCalculator.Calculate` | src/pages/Calculator.tsx:26-78 | a calculation is refused if and only if some field is the empty string |
| `QuoteCalculator.PricedForm` | src/pages/Calculator.tsx:37-66 | a complete form whose age and coverage parse is priced from the parsed integers |
| `QuoteCalculator.CalculateDecimalForm` | src/pages/Calculator.tsx:37-66 | a complete form holding integers written in decimal is priced from those integers |
| `QuoteCalculator.UnparsedAgePricesAsMidAge` | src/pages/Calculator.tsx:38-48 | a form whose age text is NaN gets the same quote as the same form with any age from 25 to 60, whatever the coverage text |
| `QuoteCalculator.UnparsedCoverage` | src/pages/Calculator.tsx:37-42 | a complete form whose coverage text is NaN is not refused: it gives a NaN quote |
| `QuoteCalculator.WorkedForms` | src/pages/Calculator.tsx:26-66 | the three worked quotes, typed into the form under any customer name |
| `QuoteCalculator.Calculator.constructor` | src/pages/Calculator.tsx:14-20 | the page starts with name, age and type empty, coverage "100000" and no quote, the same state that reset leaves |
| `QuoteCalculator.Calculator.HandleChange` | src/pages/Calculator.tsx:22-24 | one field changes and the quote is kept |
| `QuoteCalculator.Calculator.CalculateQuote` | src/pages/Calculator.tsx:26-78 | the result is Calculate of the form. On a refusal the form and the quote are unchanged. Otherwise the quote becomes the computed premium and the form is unchanged |
| `QuoteCalculator.Calculator.ResetForm` | src/pages/Calculator.tsx:80-88 | the defaults and no quote, whatever the state was, so a second reset changes nothing |
| `WebStorage.GetItem` | src/hooks/useAuth.tsx:19 | `getItem` gives null exactly when the key is absent, and otherwise the stored string |
| `WebStorage.SetItem` | src/hooks/useAuth.tsx:30 | the key reads back the written value and every other key is unchanged |
| `WebStorage.RemoveItem` | src/hooks/useAuth.tsx:38 | the key reads back as absent and every other key is unchanged |
| `WebStorage.Browser.Navigate` | src/hooks/useAuth.tsx:40 | the current path becomes the target and storage is untouched |
| `Auth.StoredFlag` | src/hooks/useAuth.tsx:19-20 | the mount read is true exactly when the key is present and holds the text "true" |
| `Auth.StoredFlagExactly` | src/hooks/useAuth.tsx:19-20 | the mount read is true if and only if the key holds exactly "true"; absent, "false" and "TRUE" all read false |
| `Auth.MountAfterLoginAndLogout` | src/hooks/useAuth.tsx:18-41 | after the login write a mount reads true, after the logout removal it reads false |
| `Auth.UseAuth` | src/hooks/useAuth.tsx:50-55 | the context is returned if and only if there is a provider; otherwise the error is raised with its message |
| `Auth.AuthProvider.constructor` | src/hooks/useAuth.tsx:13-15 | isAuthenticated is false before the mount effect runs, and no login is pending |
| `Auth.AuthProvider.Mount` | src/hooks/useAuth.tsx:18-21 | isAuthenticated becomes the stored-flag reading |
| `Auth.AuthProvider.Login` | src/hooks/useAuth.tsx:24-35 | the credentials are ignored; one timer is started and nothing else changes; there is no failure outcome |
| `Auth.AuthProvider.CompleteLogin` | src/hooks/useAuth.tsx:28-33 | the timer stores "isAuthenticated" = "true", touching no other key, and sets isAuthenticated |
| `Auth.AuthProvider.Logout` | src/hooks/useAuth.tsx:37-41 | the key is removed, touching no other key, isAuthenticated is false and the path is "/" |
| `Auth.LoginLogoutRoundTrip` | src/hooks/useAuth.tsx:18-41 | login then remount reads true; logout then remount reads false; every other storage key is as before |
| `RouteGuard.ProtectedRoute` | src/components/ProtectedRoute.tsx:9-25 | children are rendered if and only if the stored value is exactly "true"; otherwise a redirect to "/" with replace set, carrying the requested location |
| `RouteGuard.Render` | src/components/ProtectedRoute.tsx:9-25 | rendering in a browser gives that decision and modifies nothing |
| `RouteGuard.GuardAgreesWithMount` | src/components/ProtectedRoute.tsx:11 | the guard admits exactly the storage states the provider's mount calls authenticated |
| `RouteGuard.GuardAfterLoginAndLogout` | src/components/ProtectedRoute.tsx:19-24 | after the login write every page renders; after logout every page redirects to "/" |
| `Login.LoginPage.constructor` | src/pages/Index.tsx:12-14 | empty fields, not loading, no login scheduled |
| `Login.LoginPage.ChangeEmail` | src/pages/Index.tsx:72-79 | the e-mail takes the typed value unless the input is disabled by isLoading |
| `Login.LoginPage.ChangePassword` | src/pages/Index.tsx:83-90 | the password takes the typed value unless the input is disabled by isLoading |
| `Login.LoginPage.Submit` | src/pages/Index.tsx:68-100 | while loading a submission is ignored. Otherwise the browser refuses a non-empty e-mail that is not a valid address, changing nothing, and else handleLogin runs. A login starts if and only if the page was not loading, the e-mail is a valid address and the password is non-empty. A page schedules at most one login. isLoading is true exactly when one was started |
| `Login.ValidAddressHasOneAt` | src/pages/Index.tsx:72-79 | an address the e-mail input accepts has exactly one '@', with characters on both sides |
| `Login.JoinAddress` | src/pages/Index.tsx:72-79 | any non-empty local part of allowed characters, '@' and a domain make an address the input accepts |
| `Login.JoinDomain` | src/pages/Index.tsx:72-79 | a label, '.' and a domain make a domain |
| `Login.BareNameRefused` | src/pages/Index.tsx:72-79 | the input refuses "ana", which has no '@' |
| `Login.ExampleAddressValid` | src/pages/Index.tsx:72-79 | the input accepts "ana@empresa.com" |
| `Login.LoginPage.HandleLogin` | src/pages/Index.tsx:18-31 | an empty e-mail or password gives the error outcome with isLoading and the schedule unchanged; otherwise isLoading becomes true and one deferred step is scheduled |
| `Login.LoginPage.CompleteLogin` | src/pages/Index.tsx:35-43 | the deferred step stores "isAuthenticated" = "true", goes to "/dashboard" and leaves isLoading true |
| `Login.LoginFlow` | src/pages/Index.tsx:18-52 | the whole flow ends with the flag reading true on "/dashboard" after a submission the browser refuses, one the page refuses, a started one and an ignored one |

## Left out

- The e-mail input's value sanitisation. The browser strips line breaks and leading and trailing white space from a type "email" value before the page sees it. The model takes the typed value as the page receives it. Its e-mail check is the HTML standard's "valid e-mail address" grammar, without the browser's conversion of internationalised domain names.
- The formatted quote and the monthly premium (src/pages/Calculator.tsx:68-72, 173-200). The quote is kept as a number of cents, or NaN. The page instead formats it for the "es-ES" locale in euros. It then derives the monthly figure by re-parsing that text, which depends on locale data outside the model. The model makes no claim that the monthly premium is the annual one divided by 12.
- Floating point. Prices are exact integers, so the model has no rounding error from doubles. The page multiplies doubles, so at an exact half cent it may round down where the model rounds up. For example, coverage "15", age 30, "salud" gives 15 x 0.01 x 1.5 x 100 = 22.499999999999996 on the page, shown as 0,22 €, while the model gives 23 cents. The model's parseInt keeps every digit. The page's rounds to a double past 2^53 and gives Infinity beyond the largest double, which then shows as an infinite quote. "-0" is not told apart from 0.
- White space for parseInt is the set of code points ECMAScript names, as of current Unicode. Changes in later Unicode versions are not followed.
- Toasts, `useToast`, JSX rendering, and the `console.log` in the guard. The outcome a handler returns stands for the message it shows.
- The error branch of `handleLogin` (src/pages/Index.tsx:44-51). It cannot be reached, because scheduling a timer does not throw.
- Real time. Timers are explicit steps with no delay. Several pending login timers of one provider are interchangeable, so the model does not track their order.
- A timer that fires after its page was torn down. The model lets its step run, as the source does, and does not model unmounting.
- `handleChange` with a field name other than the four the page passes. The page never does this.
- Router internals. The location the guard passes on keeps the pathname, search and hash. It drops the key and the history state.
- src/components/layouts/MainLayout.tsx (sidebar toggling and navigation list), src/pages/Dashboard.tsx and src/components/InsuranceLogo.tsx. They are user interface with no logic. The layout's logout (src/components/layouts/MainLayout.tsx:20-27) removes the key, shows a toast and goes to "/", but does not go through `useAuth`. Like the login page, it leaves the provider's `isAuthenticated` as it was until the next mount.
