/**
 * `MBT\Multihost`: a table from domain name to the theme and front page that
 * domain overrides, and the filters that answer WordPress's option lookups
 * from that table for the host of the current request.
 */
module Multihost {
  import opened PhpValues
  import opened Url

  /** The record `addDomain` stores: `['theme' => ..., 'page_on_front' => ...]`. */
  datatype Config = Config(theme: Value, pageOnFront: Value)

  /** One row of the saved host list: `['domain' => ..., 'theme' => ..., 'front_page' => ...]`. */
  datatype HostRow = HostRow(domain: string, theme: Value, frontPage: Value)

  // ---------------------------------------------------------------------------
  // The domain table as a value
  // ---------------------------------------------------------------------------

  /**
   * The table after `addDomain(domain, theme, frontPage)`: an empty domain
   * ("" or "0") is ignored; otherwise the domain's entry is set, replacing any
   * earlier one, and every other entry stays as it was.
   */
  function AddEntry(domains: map<string, Config>, domain: string, theme: Value, frontPage: Value): (r: map<string, Config>)
    ensures IsEmpty(Str(domain)) ==> r == domains
    ensures !IsEmpty(Str(domain)) ==> r.Keys == domains.Keys + {domain} && r[domain] == Config(theme, frontPage)
    ensures forall d :: d in domains && d != domain ==> d in r && r[d] == domains[d]
  {
    if IsEmpty(Str(domain)) then domains else domains[domain := Config(theme, frontPage)]
  }

  /** The table after `addDomain` has been called on each row in turn. */
  function Registered(domains: map<string, Config>, rows: seq<HostRow>): map<string, Config>
    decreases |rows|
  {
    if rows == [] then domains
    else
      var last := rows[|rows| - 1];
      AddEntry(Registered(domains, rows[..|rows| - 1]), last.domain, last.theme, last.frontPage)
  }

  /** The non-empty domains the rows name. */
  function RowDomains(rows: seq<HostRow>): set<string>
  {
    set i | 0 <= i < |rows| && !IsEmpty(Str(rows[i].domain)) :: rows[i].domain
  }

  /** Registration adds exactly the rows' non-empty domains to the table. */
  lemma {:induction false} RegisteredKeys(domains: map<string, Config>, rows: seq<HostRow>)
    ensures Registered(domains, rows).Keys == domains.Keys + RowDomains(rows)
    decreases |rows|
  {
    if rows == [] {
      assert RowDomains(rows) == {};
    } else {
      var init, last := rows[..|rows| - 1], rows[|rows| - 1];
      RegisteredKeys(domains, init);
      if IsEmpty(Str(last.domain)) {
        assert RowDomains(rows) == RowDomains(init) by {
          forall d | d in RowDomains(rows) ensures d in RowDomains(init) {
            var i :| 0 <= i < |rows| && !IsEmpty(Str(rows[i].domain)) && rows[i].domain == d;
            assert i < |rows| - 1 && init[i] == rows[i];
          }
          forall d | d in RowDomains(init) ensures d in RowDomains(rows) {
            var i :| 0 <= i < |init| && !IsEmpty(Str(init[i].domain)) && init[i].domain == d;
            assert rows[i] == init[i];
          }
        }
      } else {
        assert RowDomains(rows) == RowDomains(init) + {last.domain} by {
          forall d | d in RowDomains(rows) ensures d in RowDomains(init) + {last.domain} {
            var i :| 0 <= i < |rows| && !IsEmpty(Str(rows[i].domain)) && rows[i].domain == d;
            if i < |rows| - 1 {
              assert init[i] == rows[i];
            }
          }
          forall d | d in RowDomains(init) ensures d in RowDomains(rows) {
            var i :| 0 <= i < |init| && !IsEmpty(Str(init[i].domain)) && init[i].domain == d;
            assert rows[i] == init[i];
          }
          assert rows[|rows| - 1] == last;
        }
      }
    }
  }

  /** When a domain occurs more than once, its last row wins. */
  lemma {:induction false} RegisteredLastWins(domains: map<string, Config>, rows: seq<HostRow>, j: nat)
    requires j < |rows| && !IsEmpty(Str(rows[j].domain))
    requires forall k :: j < k < |rows| ==> rows[k].domain != rows[j].domain
    ensures rows[j].domain in Registered(domains, rows)
    ensures Registered(domains, rows)[rows[j].domain] == Config(rows[j].theme, rows[j].frontPage)
    decreases |rows|
  {
    var init, last := rows[..|rows| - 1], rows[|rows| - 1];
    if j < |rows| - 1 {
      assert init[j] == rows[j];
      assert forall k :: j < k < |init| ==> init[k] == rows[k];
      RegisteredLastWins(domains, init, j);
    }
  }

  /** A domain no row names keeps whatever entry it had (or none). */
  lemma {:induction false} RegisteredUnlisted(domains: map<string, Config>, rows: seq<HostRow>, d: string)
    requires forall k :: 0 <= k < |rows| ==> rows[k].domain != d
    ensures d in Registered(domains, rows) <==> d in domains
    ensures d in domains ==> Registered(domains, rows)[d] == domains[d]
    decreases |rows|
  {
    if rows != [] {
      var init := rows[..|rows| - 1];
      assert forall k :: 0 <= k < |init| ==> init[k] == rows[k];
      RegisteredUnlisted(domains, init, d);
    }
  }

  // ---------------------------------------------------------------------------
  // The plugin object
  // ---------------------------------------------------------------------------

  class Multihost {
    /** The request's host name (`SERVER_NAME`), read once at construction. */
    const host: string
    /** Domain name to the theme and front page it overrides. */
    var domains: map<string, Config>

    /**
     * The constructor: remember the host, then register the saved host list.
     * A falsy option, or one without a host list, registers nothing and is
     * passed here as the empty sequence.
     */
    constructor (serverName: string, hosts: seq<HostRow>)
      ensures host == serverName
      ensures domains == Registered(map[], hosts)
    {
      host := serverName;
      domains := map[];
      new;
      RegisterDomains(hosts);
    }

    /** `registerDomains`: `addDomain` on each row of the host list, in order. */
    method RegisterDomains(hosts: seq<HostRow>)
      modifies this`domains
      ensures domains == Registered(old(domains), hosts)
    {
      for i := 0 to |hosts|
        invariant domains == Registered(old(domains), hosts[..i])
      {
        AddDomain(hosts[i].domain, hosts[i].theme, hosts[i].frontPage);
        assert hosts[..i + 1][..i] == hosts[..i];
      }
      assert hosts[..|hosts|] == hosts;
    }

    /** `addDomain`: set the entry of a non-empty domain; ignore an empty one. */
    method AddDomain(domain: string, theme: Value, frontPage: Value)
      modifies this`domains
      ensures domains == AddEntry(old(domains), domain, theme, frontPage)
    {
      if IsEmpty(Str(domain)) {
        return;
      }
      domains := domains[domain := Config(theme, frontPage)];
    }

    /** The current host is registered with a non-empty theme. */
    predicate HasTheme()
      reads this
    {
      host in domains && !IsEmpty(domains[host].theme)
    }

    /** The current host is registered with a non-empty front page. */
    predicate HasFrontPage()
      reads this
    {
      host in domains && !IsEmpty(domains[host].pageOnFront)
    }

    /**
     * `getThemeByHost`, the filter on the hooks `option_template` and
     * `option_stylesheet`: the host's own theme when it has one, else the theme
     * asked about.
     */
    function GetThemeByHost(theme: Value): (r: Value)
      reads this
      ensures HasTheme() ==> r == domains[host].theme && !IsEmpty(r)
      ensures !HasTheme() ==> r == theme
    {
      if host in domains then
        if IsEmpty(domains[host].theme) then theme else domains[host].theme
      else theme
    }

    /**
     * `getHostAsSiteurl`, the filter on the hooks `option_siteurl`,
     * `option_home`, `content_url` and `plugins_url`, with `parsed` the result
     * of `parse_url(value)`: a registered host is written into the URL, an
     * unregistered one leaves the URL as it is.
     */
    function GetHostAsSiteurl(value: string, parsed: Option<UrlParts>): (r: string)
      reads this
      ensures host !in domains ==> r == value
      ensures host in domains ==> r == BuildUrl(value, parsed, host)
    {
      if host in domains then BuildUrl(value, parsed, host) else value
    }

    /**
     * `showOnFrontByHost`, the filter on the hook `pre_option_show_on_front`:
     * 'page' when the host has its own front page, else the option unchanged.
     */
    function ShowOnFrontByHost(option: Value): (r: Value)
      reads this
      ensures HasFrontPage() ==> r == Str("page")
      ensures !HasFrontPage() ==> r == option
    {
      if host in domains then
        if IsEmpty(domains[host].pageOnFront) then option else Str("page")
      else option
    }

    /**
     * `pageOnFrontByHost`, the filter on the hook `pre_option_page_on_front`,
     * as the source writes it: the test on the stored page
     * is negated, so a registered host's non-empty page is never returned; an
     * empty stored page is returned instead of the argument.
     */
    function PageOnFrontByHost(postId: Value): (r: Value)
      reads this
      ensures host !in domains ==> r == postId
      ensures HasFrontPage() ==> r == postId
      ensures host in domains && !HasFrontPage() ==> r == domains[host].pageOnFront && IsEmpty(r)
      ensures r == postId || IsEmpty(r)
    {
      if host in domains then
        if !IsEmpty(domains[host].pageOnFront) then postId else domains[host].pageOnFront
      else postId
    }

    /** `pageOnFrontByHost` with the test the way round its documentation describes. */
    function IntendedPageOnFrontByHost(postId: Value): (r: Value)
      reads this
      ensures HasFrontPage() ==> r == domains[host].pageOnFront && !IsEmpty(r)
      ensures !HasFrontPage() ==> r == postId
    {
      if host in domains then
        if IsEmpty(domains[host].pageOnFront) then postId else domains[host].pageOnFront
      else postId
    }
  }

  // ---------------------------------------------------------------------------
  // From the saved host list to what the filters answer
  // ---------------------------------------------------------------------------

  /**
   * When the host list names the current host, the filters answer from the
   * last row that names it.
   */
  lemma FiltersFollowLastRow(mh: Multihost, hosts: seq<HostRow>, j: nat, theme: Value, url: string,
                             parsed: Option<UrlParts>, option: Value, postId: Value)
    requires mh.domains == Registered(map[], hosts)
    requires j < |hosts| && hosts[j].domain == mh.host && !IsEmpty(Str(mh.host))
    requires forall k :: j < k < |hosts| ==> hosts[k].domain != mh.host
    ensures mh.GetThemeByHost(theme) == if IsEmpty(hosts[j].theme) then theme else hosts[j].theme
    ensures mh.GetHostAsSiteurl(url, parsed) == BuildUrl(url, parsed, mh.host)
    ensures mh.ShowOnFrontByHost(option) == if IsEmpty(hosts[j].frontPage) then option else Str("page")
    ensures mh.IntendedPageOnFrontByHost(postId) == if IsEmpty(hosts[j].frontPage) then postId else hosts[j].frontPage
    ensures mh.PageOnFrontByHost(postId) == if IsEmpty(hosts[j].frontPage) then hosts[j].frontPage else postId
  {
    RegisteredLastWins(map[], hosts, j);
  }

  /**
   * A host the list does not name, or an empty host name ("" or "0", which
   * `addDomain` never registers), leaves every filter's argument unchanged.
   */
  lemma FiltersPassThroughUnlisted(mh: Multihost, hosts: seq<HostRow>, theme: Value, url: string,
                                   parsed: Option<UrlParts>, option: Value, postId: Value)
    requires mh.domains == Registered(map[], hosts)
    requires IsEmpty(Str(mh.host)) || forall k :: 0 <= k < |hosts| ==> hosts[k].domain != mh.host
    ensures mh.GetThemeByHost(theme) == theme
    ensures mh.GetHostAsSiteurl(url, parsed) == url
    ensures mh.ShowOnFrontByHost(option) == option
    ensures mh.PageOnFrontByHost(postId) == postId
    ensures mh.IntendedPageOnFrontByHost(postId) == postId
  {
    if IsEmpty(Str(mh.host)) {
      RegisteredKeys(map[], hosts);
      assert mh.host !in RowDomains(hosts);
    } else {
      RegisteredUnlisted(map[], hosts, mh.host);
    }
  }

  /**
   * For a registered host, and a URL whose user and password come together and
   * whose scheme comes exactly with an authority, the site URL is the URL
   * recomposed with the host written in.
   */
  lemma SiteurlUsesHost(mh: Multihost, url: string, p: UrlParts)
    requires mh.host in mh.domains
    requires p.user.Some? == p.pass.Some? && p.scheme.Some? == HasAuthority(p)
    ensures mh.GetHostAsSiteurl(url, Some(p)) == Assemble(WithHost(p, mh.host))
  {
    BuildUrlMatchesAssemble(url, p, mh.host);
  }

  /**
   * A host registered with front page 42: the source switches the front page
   * to 'page' yet passes WordPress's `false` through for the page itself, so
   * the site-wide page is shown; the intended filter answers 42.
   */
  lemma FrontPageMismatch(mh: Multihost)
    requires mh.host in mh.domains && mh.domains[mh.host].pageOnFront == Int(42)
    ensures mh.ShowOnFrontByHost(Bool(false)) == Str("page")
    ensures mh.PageOnFrontByHost(Bool(false)) == Bool(false)
    ensures mh.IntendedPageOnFrontByHost(Bool(false)) == Int(42)
  {
  }

  /**
   * The intended front-page filter overrides exactly when `showOnFrontByHost`
   * does, so 'page' always comes with the host's own page.
   */
  lemma IntendedFrontPageAgrees(mh: Multihost, option: Value, postId: Value)
    ensures mh.ShowOnFrontByHost(option) != option ==>
              mh.IntendedPageOnFrontByHost(postId) == mh.domains[mh.host].pageOnFront
    ensures mh.IntendedPageOnFrontByHost(postId) != postId ==> mh.ShowOnFrontByHost(option) == Str("page")
    ensures mh.HasFrontPage() ==>
              mh.ShowOnFrontByHost(option) == Str("page") &&
              mh.IntendedPageOnFrontByHost(postId) == mh.domains[mh.host].pageOnFront
    ensures !mh.HasFrontPage() ==>
              mh.ShowOnFrontByHost(option) == option && mh.IntendedPageOnFrontByHost(postId) == postId
  {
  }
}
