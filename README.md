# mu-multihost in Dafny

A model of the core of `MBT\Multihost`, a WordPress must-use plugin that serves one
installation under several domain names. It holds a table from each domain to the
theme and front page that domain overrides. Its filters answer WordPress's option
lookups from that table, using the host of the current request.

- `php_values.dfy` (module `PhpValues`): the PHP scalars the plugin handles (`Value`:
  null, booleans, integers, strings) and PHP's `empty()` on them (`IsEmpty`).
- `url.dfy` (module `Url`): `buildUrl` (`BuildUrl`). It rebuilds a URL from the
  components `parse_url` returned and writes a new host in place of the old one.
  Beside it sits a reference recomposition (`Assemble`). That reference follows
  section 5.3 of RFC 3986: scheme ":", then "//" authority whenever there is an
  authority, with authority = [userinfo "@"] host [":" port] and userinfo =
  user [":" password]. Port numbers are written in decimal (`Decimal`).
- `multihost.dfy` (module `Multihost`): the domain table as a value (`AddEntry`,
  `Registered`), and the class `Multihost`. The class has the request host as a
  constant and the table as a `map` field. Its methods `AddDomain` and
  `RegisterDomains` update the field in place. The four filters are functions that
  only read the object, so none of them can change the domain table.

The request host (`$_SERVER['SERVER_NAME']`) and the saved host list are
constructor parameters. `parse_url`'s result is a parameter of `BuildUrl` and
`GetHostAsSiteurl`. `None` there stands for a failed parse.

## Model

| member | source | states |
|---|---|---|
| `Multihost.AddEntry` | mu-multihost.php:74-82 | an empty domain ("" or "0") leaves the table unchanged; otherwise the domain's entry becomes (theme, page_on_front), and the other entries keep their values |
| `Multihost.RegisteredKeys` | mu-multihost.php:58-82 | after registration the table's domains are the old ones plus every non-empty domain of the host list |
| `Multihost.RegisteredLastWins` | mu-multihost.php:61-81 | a domain that occurs more than once in the host list ends up with the entry of its last row |
| `Multihost.RegisteredUnlisted` | mu-multihost.php:61-81 | a domain no row names keeps its entry, or stays absent |
| `Multihost.Multihost.constructor` | mu-multihost.php:49-53 | the object holds the given host, and its table is the host list registered into an empty table |
| `Multihost.Multihost.RegisterDomains` | mu-multihost.php:58-65 | the new table is the old table with `addDomain` applied to each row in order |
| `Multihost.Multihost.AddDomain` | mu-multihost.php:74-82 | the new table is `AddEntry` of the old one; only the `domains` field changes |
| `Multihost.Multihost.GetThemeByHost` | mu-multihost.php:107-115 | returns the stored theme exactly when the host is registered with a non-empty theme; otherwise returns its argument |
| `Multihost.Multihost.GetHostAsSiteurl` | mu-multihost.php:124-129 | an unregistered host leaves the URL unchanged; a registered host gives the URL rebuilt with that host |
| `Multihost.Multihost.ShowOnFrontByHost` | mu-multihost.php:161-169 | returns 'page' exactly when the host is registered with a non-empty page_on_front; otherwise returns its argument |
| `Multihost.Multihost.PageOnFrontByHost` | mu-multihost.php:178-186 | as written: an unregistered host, or a non-empty stored page, gives back the argument; an empty stored page is returned itself; so the result is never a page id other than the argument |
| `Multihost.Multihost.IntendedPageOnFrontByHost` | mu-multihost.php:171-186 | corrected: returns the stored page exactly when it is non-empty; otherwise returns its argument |
| `Multihost.FiltersFollowLastRow` | mu-multihost.php:107-186 | for a host named in the host list, every filter answers from the last row naming it, and the site URL is rebuilt with that host |
| `Multihost.FiltersPassThroughUnlisted` | mu-multihost.php:107-186 | for a host the list does not name, or an empty host name, every filter, the corrected page filter included, returns its argument unchanged |
| `Multihost.SiteurlUsesHost` | mu-multihost.php:124-152 | for a registered host, and a URL whose user and password are both present or both absent and which has a scheme exactly when it has an authority, the site URL is the RFC 3986 recomposition of the URL's components with that host |
| `Multihost.FrontPageMismatch` | mu-multihost.php:161-186 | for a host with front page 42, show_on_front becomes 'page' while page_on_front stays `false`; the corrected filter gives 42 |
| `Multihost.IntendedFrontPageAgrees` | mu-multihost.php:161-186 | for a host registered with a non-empty front page, show_on_front gives 'page' and the corrected page filter gives that page; otherwise both pass their arguments through; so the corrected page filter overrides exactly when `showOnFrontByHost` switches to 'page' |
| `Url.BuildUrl` | mu-multihost.php:139-152 | a failed parse returns the URL unchanged |
| `Url.Decimal` | mu-multihost.php:146 | the port is written as a non-empty string of digits without a leading zero |
| `Url.DecimalRoundTrip` | mu-multihost.php:146 | reading the written port back gives the port |
| `Url.WrittenSchemeCorrect` | mu-multihost.php:142 | the source's "scheme://" is the RFC 3986 scheme ":" plus "//" exactly when a scheme comes with an authority |
| `Url.WrittenUserInfoCorrect` | mu-multihost.php:143-144 | the source's "user:" and "password@" form valid userinfo exactly when user and password are both present or both absent |
| `Url.BuildUrlMatchesAssemble` | mu-multihost.php:142-149 | the rebuilt URL equals the RFC 3986 recomposition with the new host exactly when user and password are both present or both absent and a scheme is present exactly when an authority is |
| `Url.BuildUrlOriginalHost` | mu-multihost.php:142-149 | when user and password are both present or both absent and a scheme is present exactly when an authority is, substituting the original host reproduces the RFC 3986 recomposition |
| `Url.BuildUrlWithoutUserInfo` | mu-multihost.php:142-149 | with a scheme and a host and no user or password, the result is scheme "://" host [":" port] path ["?" query] ["#" fragment] |
| `Url.BuildUrlWithoutHost` | mu-multihost.php:145 | without a host component the new host is never written |
| `Url.BuildUrlIgnoresParsedHost` | mu-multihost.php:140-149 | of a parsed URL only the components count: the URL's text and the parsed host's value never reach the result |
| `Url.BuildUrlKeepsFragment` | mu-multihost.php:142-149 | when no other component and not the new host contains '#', the rebuilt URL's fragment is the original fragment |
| `Url.BuildUrlFixed` | mu-multihost.php:142-149 | corrected: a failed parse returns the URL unchanged; otherwise the separators are those of RFC 3986 |
| `Url.BuildUrlFixedMatchesAssemble` | mu-multihost.php:142-149 | the corrected rebuild always equals the RFC 3986 recomposition with the new host, and agrees with the source whenever user and password come together and a scheme comes exactly with a reported authority |
| `Url.UserWithoutPasswordLosesAt` | mu-multihost.php:143-144 | "http://u@old.example/" is rebuilt as "http://u:new.example/" by the source and as "http://u@new.example/" by the corrected rebuild |
| `Url.SlashesFollowScheme` | mu-multihost.php:142-145 | "//old.example/x" is rebuilt as "new.example/x" and "mailto:joe@example.com" as "mailto://joe@example.com" by the source; the corrected rebuild gives "//new.example/x" and "mailto:joe@example.com" |
| `Url.EmptyAuthorityDropped` | mu-multihost.php:140-142 | "file:///x", whose empty authority `parse_url` does not report, comes back unchanged from the source, while the corrected rebuild writes "file:/x" |

## Left out

- WordPress hook registration (`registerHooks`, mu-multihost.php:87-98): framework plumbing. Each filter is named after the PHP method, and its doc comment lists the hooks it is registered on.
- The singleton `init` and the reading of `$_SERVER['SERVER_NAME']` (mu-multihost.php:39-53): environment input. The host is a constructor parameter.
- Loading and unserialising the saved option (`get_option`, `maybe_unserialize`, mu-multihost.php:59): the host list is a constructor parameter. A falsy option, or one without a `hosts` entry, registers nothing and is passed as the empty sequence.
- `parse_url` (mu-multihost.php:140): a PHP library function. Its result is an input record of optional components. So nothing is said about rebuilding an already rebuilt URL: that depends on how `parse_url` reads the rebuilt text, and the source is not idempotent on "mailto:joe@example.com" (it becomes "mailto://joe@example.com", which parses with a user and a host).
- The settings page, form fields, HTML, the embedded script and `wp_get_themes` (mu-multihost.php:188-310): user interface and framework calls. The form names its rows `mu-multihost[host][...]` (line 267), while `registerDomains` reads `['hosts']` (line 61). The model takes the loaded list as given.
- Floats and arrays as PHP values: the plugin only meets strings, integers, booleans and null. `IsEmpty` covers PHP's `empty()` on these.
- Non-string domains: a row's domain is a string, as the form field delivers it. A missing `domain` entry reads as null in PHP, and `addDomain` skips it like "".
- PHP's conversion of numeric-string array keys to integers: it happens the same way when storing and when looking up, so a `map<string, Config>` answers the same.
- BuildUrlFixed: `parse_url` drops an empty authority, so for "file:///x" the source returns the URL unchanged while the corrected rebuild writes "file:/x" (`EmptyAuthorityDropped`). The components cannot tell "file:///x" from "file:/x", so no rebuild from them is right for both; the corrected rebuild follows the components.
- Nothing else: the class's filters follow the source as written, including the three defects under Findings. The corrected definitions stand beside them: `IntendedPageOnFrontByHost` corrects the first, and `BuildUrlFixed` corrects the other two.

## Findings

| source | as written | input that shows it | evidently intended | confidence | as-written member | corrected member |
|---|---|---|---|---|---|---|
| mu-multihost.php:180 | `pageOnFrontByHost` returns the argument when the stored page is non-empty, and the stored value when it is empty | host registered with front page 42, filter argument `false`: `showOnFrontByHost` gives 'page', `pageOnFrontByHost` gives `false` | return the stored page when it is non-empty, as the method's documentation says, so that it agrees with `showOnFrontByHost` | high; not executed | `Multihost.FrontPageMismatch` | `Multihost.Multihost.IntendedPageOnFrontByHost` |
| mu-multihost.php:143-144 | the user is always followed by ":" and the password by "@", so a user without a password gets no "@" | components of "http://u@old.example/" with new host "new.example" give "http://u:new.example/", which names host "u" and port "new.example" | write userinfo as user [":" password] "@" | high; not executed | `Url.UserWithoutPasswordLosesAt` | `Url.BuildUrlFixed` |
| mu-multihost.php:142-145 | "://" is written after the scheme, and only there, so the "//" goes with the scheme instead of with the authority | the components of the scheme-relative "//old.example/x" with new host "new.example" give "new.example/x", a relative path; "mailto:joe@example.com" gives "mailto://joe@example.com", where "joe@example.com" becomes an authority | write scheme ":" when there is a scheme and "//" when there is an authority; this loses the empty authority of "file:///x", which the source keeps (see `BuildUrlFixed` under Left out) | medium; not executed | `Url.SlashesFollowScheme` | `Url.BuildUrlFixed` |
