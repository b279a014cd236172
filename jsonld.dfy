/**
 * The schema.org JSON-LD documents the site embeds: the organization,
 * local business, website and breadcrumb builders, with their optional
 * members and numbered lists, and the site-wide documents in English or
 * Russian. A document is a JSON object; a member that a conditional spread
 * leaves out is absent.
 */
module JsonLd {
  import opened Wrappers
  import opened Strings
  import opened Json

  const Context := "https://schema.org"

  function Str(s: string): Option<Json> {
    Some(JStr(s))
  }

  /** A member present when the optional value is given. */
  function StrIfGiven(s: Option<string>): Option<Json> {
    if s.Some? then Some(JStr(s.value)) else None
  }

  /** `...(s && { key: s })` for a string: present only when it is non-empty. */
  function StrIfTruthy(s: Option<string>): (r: Option<Json>)
    ensures r.Some? <==> Truthy(s)
    ensures r.Some? ==> r.value == JStr(s.value)
  {
    if Truthy(s) then Some(JStr(s.value)) else None
  }

  /** `...(xs && { key: xs })` for an array: present whenever it is given, an empty array too. */
  function ArrIfGiven(xs: Option<seq<string>>): Option<Json> {
    if xs.Some? then Some(StrArray(xs.value)) else None
  }

  // ---------------------------------------------------------------- numbered lists

  datatype Crumb = Crumb(name: string, url: string)

  /** One breadcrumb entry, numbered from 1. */
  function ListItem(k: nat, c: Crumb): Json {
    JObj(Members([("@type", Str("ListItem")), ("position", Some(JNum((k + 1) as real))),
                  ("name", Str(c.name)), ("item", Str(c.url))]))
  }

  /** `items.map((item, index) => ...)`. */
  function ListItems(items: seq<Crumb>): (r: seq<Json>)
    ensures |r| == |items|
    ensures forall k :: 0 <= k < |items| ==> r[k] == ListItem(k, items[k])
  {
    seq(|items|, k requires 0 <= k < |items| => ListItem(k, items[k]))
  }

  /** `BreadcrumbSchema`. */
  function Breadcrumb(items: seq<Crumb>): Json {
    JObj(Members([("@context", Str(Context)), ("@type", Str("BreadcrumbList")),
                  ("itemListElement", Some(JArr(ListItems(items))))]))
  }

  /** The members of one breadcrumb entry. */
  lemma ListItemLookups(k: nat, c: Crumb)
    ensures var fs := ListItem(k, c).fields;
      && Lookup(fs, "@type") == Some(JStr("ListItem"))
      && Lookup(fs, "position") == Some(JNum((k + 1) as real))
      && Lookup(fs, "name") == Some(JStr(c.name))
      && Lookup(fs, "item") == Some(JStr(c.url))
  {
    var ms: seq<(string, Option<Json>)> := [("@type", Str("ListItem")), ("position", Some(JNum((k + 1) as real))),
                                            ("name", Str(c.name)), ("item", Str(c.url))];
    assert forall a, b :: 0 <= a < b < |ms| ==> ms[a].0 != ms[b].0;
    MembersLookup(ms, 0);
    MembersLookup(ms, 1);
    MembersLookup(ms, 2);
    MembersLookup(ms, 3);
  }

  /**
   * The breadcrumb list has one entry per item, in order: the k-th entry
   * is at position k + 1 and carries the k-th item's name and URL.
   */
  lemma BreadcrumbEntries(items: seq<Crumb>)
    ensures var fs := Breadcrumb(items).fields;
      && Lookup(fs, "@type") == Some(JStr("BreadcrumbList"))
      && Lookup(fs, "itemListElement").Some? && Lookup(fs, "itemListElement").value.JArr?
      && var es := Lookup(fs, "itemListElement").value.items;
      && |es| == |items|
      && forall k :: 0 <= k < |items| ==>
           && es[k].JObj?
           && Lookup(es[k].fields, "position") == Some(JNum((k + 1) as real))
           && Lookup(es[k].fields, "name") == Some(JStr(items[k].name))
           && Lookup(es[k].fields, "item") == Some(JStr(items[k].url))
  {
    var ms: seq<(string, Option<Json>)> := [("@context", Str(Context)), ("@type", Str("BreadcrumbList")),
                                            ("itemListElement", Some(JArr(ListItems(items))))];
    assert forall a, b :: 0 <= a < b < |ms| ==> ms[a].0 != ms[b].0;
    MembersLookup(ms, 1);
    MembersLookup(ms, 2);
    forall k | 0 <= k < |items|
      ensures Lookup(ListItem(k, items[k]).fields, "position") == Some(JNum((k + 1) as real))
      ensures Lookup(ListItem(k, items[k]).fields, "name") == Some(JStr(items[k].name))
      ensures Lookup(ListItem(k, items[k]).fields, "item") == Some(JStr(items[k].url))
    {
      ListItemLookups(k, items[k]);
    }
  }

  /** Reads one breadcrumb entry back: its name and URL. */
  function ReadCrumb(e: Json): Option<Crumb> {
    var name := Get(Some(e), "name");
    var url := Get(Some(e), "item");
    if name.Some? && name.value.JStr? && url.Some? && url.value.JStr?
    then Some(Crumb(name.value.s, url.value.s))
    else None
  }

  /** Reading the entries of a breadcrumb list back, in order. */
  function ReadCrumbs(es: seq<Json>): (r: Option<seq<Crumb>>)
    ensures r.Some? ==> |r.value| == |es|
  {
    if es == [] then Some([])
    else
      var rest := ReadCrumbs(es[..|es| - 1]);
      var last := ReadCrumb(es[|es| - 1]);
      if rest.Some? && last.Some? then Some(rest.value + [last.value]) else None
  }

  lemma ReadListItem(k: nat, c: Crumb)
    ensures ReadCrumb(ListItem(k, c)) == Some(c)
  {
    ListItemLookups(k, c);
  }

  /** Entries that each read back as the matching item read back as the whole list. */
  lemma {:induction false} ReadCrumbsAll(es: seq<Json>, items: seq<Crumb>)
    requires |es| == |items|
    requires forall k :: 0 <= k < |es| ==> ReadCrumb(es[k]) == Some(items[k])
    ensures ReadCrumbs(es) == Some(items)
    decreases |es|
  {
    if es != [] {
      var n := |es| - 1;
      forall k | 0 <= k < n ensures ReadCrumb(es[..n][k]) == Some(items[..n][k]) {
        assert es[..n][k] == es[k] && items[..n][k] == items[k];
      }
      ReadCrumbsAll(es[..n], items[..n]);
      assert items[..n] + [items[n]] == items;
    }
  }

  /** The entries give the items back: the list loses nothing and reorders nothing. */
  lemma BreadcrumbRoundTrip(items: seq<Crumb>)
    ensures ReadCrumbs(ListItems(items)) == Some(items)
  {
    var es := ListItems(items);
    forall k | 0 <= k < |es| ensures ReadCrumb(es[k]) == Some(items[k]) {
      ReadListItem(k, items[k]);
    }
    ReadCrumbsAll(es, items);
  }

  /** One offer of the catalogue, numbered from 1. */
  function Offer(k: nat, service: string): Json {
    JObj(Members([("@type", Str("Offer")),
                  ("itemOffered", Some(JObj(Members([("@type", Str("Service")), ("name", Str(service))])))),
                  ("position", Some(JNum((k + 1) as real)))]))
  }

  /** `serviceType.map((service, index) => ...)`. */
  function Offers(serviceType: seq<string>): (r: seq<Json>)
    ensures |r| == |serviceType|
    ensures forall k :: 0 <= k < |serviceType| ==> r[k] == Offer(k, serviceType[k])
  {
    seq(|serviceType|, k requires 0 <= k < |serviceType| => Offer(k, serviceType[k]))
  }

  /** Each offer names its service and is at its list position plus one. */
  lemma OfferLookups(k: nat, service: string)
    ensures var fs := Offer(k, service).fields;
      && Lookup(fs, "position") == Some(JNum((k + 1) as real))
      && Lookup(fs, "itemOffered").Some? && Lookup(fs, "itemOffered").value.JObj?
      && Lookup(Lookup(fs, "itemOffered").value.fields, "name") == Some(JStr(service))
      && Lookup(Lookup(fs, "itemOffered").value.fields, "@type") == Some(JStr("Service"))
  {
    var inner: seq<(string, Option<Json>)> := [("@type", Str("Service")), ("name", Str(service))];
    var ms: seq<(string, Option<Json>)> := [("@type", Str("Offer")), ("itemOffered", Some(JObj(Members(inner)))),
                                            ("position", Some(JNum((k + 1) as real)))];
    assert forall a, b :: 0 <= a < b < |ms| ==> ms[a].0 != ms[b].0;
    assert forall a, b :: 0 <= a < b < |inner| ==> inner[a].0 != inner[b].0;
    MembersLookup(ms, 1);
    MembersLookup(ms, 2);
    MembersLookup(inner, 0);
    MembersLookup(inner, 1);
  }

  // ---------------------------------------------------------------- organization

  datatype Address = Address(streetAddress: Option<string>, addressLocality: string, addressRegion: Option<string>,
                             postalCode: Option<string>, addressCountry: string)

  /** `{ "@type": "PostalAddress", ...address }`: the given parts, the missing ones absent. */
  function AddressJson(a: Address): Json {
    JObj(Members([("@type", Str("PostalAddress")), ("streetAddress", StrIfGiven(a.streetAddress)),
                  ("addressLocality", Str(a.addressLocality)), ("addressRegion", StrIfGiven(a.addressRegion)),
                  ("postalCode", StrIfGiven(a.postalCode)), ("addressCountry", Str(a.addressCountry))]))
  }

  datatype ContactPoint = ContactPoint(telephone: string, email: string)

  datatype OrganizationProps = OrganizationProps(name: string, url: string, logo: string, description: string,
                                                 address: Address, contactPoint: Option<ContactPoint>,
                                                 sameAs: Option<seq<string>>)

  function ContactPointJson(c: ContactPoint): Json {
    JObj(Members([("@type", Str("ContactPoint")), ("telephone", Str(c.telephone)), ("email", Str(c.email)),
                  ("contactType", Str("customer service")),
                  ("availableLanguage", Some(StrArray(["English", "Russian"])))]))
  }

  function OrganizationMembers(p: OrganizationProps): seq<(string, Option<Json>)> {
    [("@context", Str(Context)), ("@type", Str("Organization")), ("name", Str(p.name)), ("url", Str(p.url)),
     ("logo", Str(p.logo)), ("description", Str(p.description)), ("address", Some(AddressJson(p.address))),
     ("contactPoint", if p.contactPoint.Some? then Some(ContactPointJson(p.contactPoint.value)) else None),
     ("sameAs", ArrIfGiven(p.sameAs))]
  }

  /** `OrganizationSchema`. */
  function Organization(p: OrganizationProps): Json {
    JObj(Members(OrganizationMembers(p)))
  }

  /**
   * The contact point is present exactly when one is given, as a customer
   * service point in English and Russian; `sameAs` is present exactly when
   * given, and holds the given links.
   */
  lemma OrganizationOptional(p: OrganizationProps)
    ensures var fs := Organization(p).fields;
      && (Lookup(fs, "contactPoint").Some? <==> p.contactPoint.Some?)
      && (p.contactPoint.Some? ==> Lookup(fs, "contactPoint") == Some(ContactPointJson(p.contactPoint.value)))
      && (Lookup(fs, "sameAs").Some? <==> p.sameAs.Some?)
      && (p.sameAs.Some? ==> Lookup(fs, "sameAs") == Some(StrArray(p.sameAs.value)))
      && Lookup(fs, "address") == Some(AddressJson(p.address))
  {
    var ms := OrganizationMembers(p);
    assert forall a, b :: 0 <= a < b < |ms| ==> ms[a].0 != ms[b].0;
    MembersLookup(ms, 6);
    MembersLookup(ms, 7);
    MembersLookup(ms, 8);
  }

  /** What a given contact point holds. */
  lemma ContactPointMembers(c: ContactPoint)
    ensures var fs := ContactPointJson(c).fields;
      && Lookup(fs, "telephone") == Some(JStr(c.telephone))
      && Lookup(fs, "email") == Some(JStr(c.email))
      && Lookup(fs, "contactType") == Some(JStr("customer service"))
      && Lookup(fs, "availableLanguage") == Some(StrArray(["English", "Russian"]))
  {
    var ms: seq<(string, Option<Json>)> := [("@type", Str("ContactPoint")), ("telephone", Str(c.telephone)),
                                            ("email", Str(c.email)), ("contactType", Str("customer service")),
                                            ("availableLanguage", Some(StrArray(["English", "Russian"])))];
    assert forall a, b :: 0 <= a < b < |ms| ==> ms[a].0 != ms[b].0;
    MembersLookup(ms, 1);
    MembersLookup(ms, 2);
    MembersLookup(ms, 3);
    MembersLookup(ms, 4);
  }

  // ---------------------------------------------------------------- local business

  datatype Geo = Geo(latitude: real, longitude: real)

  datatype LocalBusinessProps = LocalBusinessProps(
    name: string, description: string, url: string, image: Option<string>, address: Address,
    geo: Option<Geo>, telephone: Option<string>, email: Option<string>, openingHours: Option<seq<string>>,
    priceRange: Option<string>, areaServed: Option<seq<string>>, serviceType: Option<seq<string>>)

  function GeoJson(g: Geo): Json {
    JObj(Members([("@type", Str("GeoCoordinates")), ("latitude", Some(JNum(g.latitude))),
                  ("longitude", Some(JNum(g.longitude)))]))
  }

  function Catalog(serviceType: seq<string>): Json {
    JObj(Members([("@type", Str("OfferCatalog")), ("name", Str("IT Services")),
                  ("itemListElement", Some(JArr(Offers(serviceType))))]))
  }

  function LocalBusinessMembers(p: LocalBusinessProps): seq<(string, Option<Json>)> {
    [("@context", Str(Context)), ("@type", Str("ProfessionalService")), ("@id", Str(p.url + "#organization")),
     ("name", Str(p.name)), ("description", Str(p.description)), ("url", Str(p.url)),
     ("image", StrIfTruthy(p.image)), ("address", Some(AddressJson(p.address))),
     ("geo", if p.geo.Some? then Some(GeoJson(p.geo.value)) else None),
     ("telephone", StrIfTruthy(p.telephone)), ("email", StrIfTruthy(p.email)),
     ("openingHoursSpecification", ArrIfGiven(p.openingHours)), ("priceRange", StrIfTruthy(p.priceRange)),
     ("areaServed", ArrIfGiven(p.areaServed)),
     ("hasOfferCatalog", if p.serviceType.Some? then Some(Catalog(p.serviceType.value)) else None)]
  }

  /** `LocalBusinessSchema`. */
  function LocalBusiness(p: LocalBusinessProps): Json {
    JObj(Members(LocalBusinessMembers(p)))
  }

  lemma LocalBusinessKeysDistinct(p: LocalBusinessProps)
    ensures var ms := LocalBusinessMembers(p); forall a, b :: 0 <= a < b < |ms| ==> ms[a].0 != ms[b].0
  {
  }

  /**
   * The business's `@id` is its URL followed by "#organization"; image,
   * telephone, email and price range appear exactly when non-empty.
   */
  lemma LocalBusinessOptional(p: LocalBusinessProps)
    ensures var fs := LocalBusiness(p).fields;
      && Lookup(fs, "@id") == Some(JStr(p.url + "#organization"))
      && (Lookup(fs, "image").Some? <==> Truthy(p.image))
      && (Lookup(fs, "telephone").Some? <==> Truthy(p.telephone))
      && (Lookup(fs, "email").Some? <==> Truthy(p.email))
      && (Lookup(fs, "priceRange").Some? <==> Truthy(p.priceRange))
  {
    var ms := LocalBusinessMembers(p);
    LocalBusinessKeysDistinct(p);
    MembersLookup(ms, 2);
    MembersLookup(ms, 6);
    MembersLookup(ms, 9);
    MembersLookup(ms, 10);
    MembersLookup(ms, 12);
  }

  /** Geo, opening hours, area served and the offer catalogue appear exactly when given. */
  lemma LocalBusinessGiven(p: LocalBusinessProps)
    ensures var fs := LocalBusiness(p).fields;
      && (Lookup(fs, "geo").Some? <==> p.geo.Some?)
      && (Lookup(fs, "openingHoursSpecification").Some? <==> p.openingHours.Some?)
      && (Lookup(fs, "areaServed").Some? <==> p.areaServed.Some?)
      && (Lookup(fs, "hasOfferCatalog").Some? <==> p.serviceType.Some?)
      && (p.serviceType.Some? ==> Lookup(fs, "hasOfferCatalog") == Some(Catalog(p.serviceType.value)))
  {
    var ms := LocalBusinessMembers(p);
    LocalBusinessKeysDistinct(p);
    MembersLookup(ms, 8);
    MembersLookup(ms, 11);
    MembersLookup(ms, 13);
    MembersLookup(ms, 14);
  }

  /** The catalogue lists one offer per service type, in order, numbered from 1. */
  lemma CatalogOffers(serviceType: seq<string>)
    ensures var fs := Catalog(serviceType).fields;
      && Lookup(fs, "itemListElement") == Some(JArr(Offers(serviceType)))
      && |Offers(serviceType)| == |serviceType|
      && forall k :: 0 <= k < |serviceType| ==>
           Lookup(Offers(serviceType)[k].fields, "position") == Some(JNum((k + 1) as real))
  {
    var ms: seq<(string, Option<Json>)> := [("@type", Str("OfferCatalog")), ("name", Str("IT Services")),
                                            ("itemListElement", Some(JArr(Offers(serviceType))))];
    assert forall a, b :: 0 <= a < b < |ms| ==> ms[a].0 != ms[b].0;
    MembersLookup(ms, 2);
    forall k | 0 <= k < |serviceType|
      ensures Lookup(Offers(serviceType)[k].fields, "position") == Some(JNum((k + 1) as real))
    {
      OfferLookups(k, serviceType[k]);
    }
  }

  // ---------------------------------------------------------------- website

  /** `${url}/search?q={search_term_string}`. */
  function UrlTemplate(url: string): (t: string)
    ensures StartsWith(t, url) && t[|url|..] == "/search?q={search_term_string}"
  {
    url + "/search?q={search_term_string}"
  }

  function SearchAction(url: string): Json {
    JObj(Members([("@type", Str("SearchAction")),
                  ("target", Some(JObj(Members([("@type", Str("EntryPoint")), ("urlTemplate", Str(UrlTemplate(url)))])))),
                  ("query-input", Str("required name=search_term_string"))]))
  }

  /** `WebsiteSchema`. */
  function Website(name: string, url: string, description: string, inLanguage: seq<string>): Json {
    JObj(Members([("@context", Str(Context)), ("@type", Str("WebSite")), ("name", Str(name)), ("url", Str(url)),
                  ("description", Str(description)), ("inLanguage", Some(StrArray(inLanguage))),
                  ("potentialAction", Some(SearchAction(url)))]))
  }

  /** The search action's entry point is the URL template, and its query input is required. */
  lemma SearchActionMembers(url: string)
    ensures Get(Get(Some(SearchAction(url)), "target"), "urlTemplate") == Some(JStr(url + "/search?q={search_term_string}"))
    ensures Get(Some(SearchAction(url)), "query-input") == Some(JStr("required name=search_term_string"))
  {
    var tm: seq<(string, Option<Json>)> := [("@type", Str("EntryPoint")), ("urlTemplate", Str(UrlTemplate(url)))];
    var am: seq<(string, Option<Json>)> := [("@type", Str("SearchAction")), ("target", Some(JObj(Members(tm)))),
                                            ("query-input", Str("required name=search_term_string"))];
    assert forall a, b :: 0 <= a < b < |tm| ==> tm[a].0 != tm[b].0;
    assert forall a, b :: 0 <= a < b < |am| ==> am[a].0 != am[b].0;
    MembersLookup(am, 1);
    MembersLookup(am, 2);
    MembersLookup(tm, 1);
  }

  /** The website's search action targets the site's own URL followed by the search path. */
  lemma WebsiteSearchTarget(name: string, url: string, description: string, inLanguage: seq<string>)
    ensures var fs := Website(name, url, description, inLanguage).fields;
      var target := Get(Get(Lookup(fs, "potentialAction"), "target"), "urlTemplate");
      && Lookup(fs, "url") == Some(JStr(url))
      && target == Some(JStr(url + "/search?q={search_term_string}"))
      && Get(Lookup(fs, "potentialAction"), "query-input") == Some(JStr("required name=search_term_string"))
  {
    var wm: seq<(string, Option<Json>)> := [("@context", Str(Context)), ("@type", Str("WebSite")), ("name", Str(name)),
                                            ("url", Str(url)), ("description", Str(description)),
                                            ("inLanguage", Some(StrArray(inLanguage))),
                                            ("potentialAction", Some(SearchAction(url)))];
    assert forall a, b :: 0 <= a < b < |wm| ==> wm[a].0 != wm[b].0;
    MembersLookup(wm, 3);
    MembersLookup(wm, 6);
    SearchActionMembers(url);
  }

  // ---------------------------------------------------------------- service and article

  /** `ServiceSchema`: `areaServed` when given, `serviceType` when non-empty. */
  function Service(name: string, description: string, provider: string, areaServed: Option<seq<string>>,
                   serviceType: Option<string>): Json {
    JObj(Members([("@context", Str(Context)), ("@type", Str("Service")), ("name", Str(name)),
                  ("description", Str(description)),
                  ("provider", Some(JObj(Members([("@type", Str("Organization")), ("name", Str(provider))])))),
                  ("areaServed", ArrIfGiven(areaServed)), ("serviceType", StrIfTruthy(serviceType))]))
  }

  lemma ServiceOptional(name: string, description: string, provider: string, areaServed: Option<seq<string>>,
                        serviceType: Option<string>)
    ensures var fs := Service(name, description, provider, areaServed, serviceType).fields;
      && (Lookup(fs, "areaServed").Some? <==> areaServed.Some?)
      && (Lookup(fs, "serviceType").Some? <==> Truthy(serviceType))
      && Get(Lookup(fs, "provider"), "name") == Some(JStr(provider))
  {
    var pm: seq<(string, Option<Json>)> := [("@type", Str("Organization")), ("name", Str(provider))];
    var ms: seq<(string, Option<Json>)> := [("@context", Str(Context)), ("@type", Str("Service")), ("name", Str(name)),
                                            ("description", Str(description)), ("provider", Some(JObj(Members(pm)))),
                                            ("areaServed", ArrIfGiven(areaServed)), ("serviceType", StrIfTruthy(serviceType))];
    assert forall a, b :: 0 <= a < b < |pm| ==> pm[a].0 != pm[b].0;
    assert forall a, b :: 0 <= a < b < |ms| ==> ms[a].0 != ms[b].0;
    MembersLookup(ms, 4);
    MembersLookup(ms, 5);
    MembersLookup(ms, 6);
    MembersLookup(pm, 1);
  }

  datatype ArticleProps = ArticleProps(headline: string, description: string, image: Option<string>,
                                       datePublished: string, dateModified: Option<string>, author: string,
                                       publisher: string, url: string)

  function ArticleMembers(p: ArticleProps): seq<(string, Option<Json>)> {
    [("@context", Str(Context)), ("@type", Str("Article")), ("headline", Str(p.headline)),
     ("description", Str(p.description)), ("image", StrIfTruthy(p.image)), ("datePublished", Str(p.datePublished)),
     ("dateModified", StrIfTruthy(p.dateModified)),
     ("author", Some(JObj(Members([("@type", Str("Organization")), ("name", Str(p.author))])))),
     ("publisher", Some(JObj(Members([("@type", Str("Organization")), ("name", Str(p.publisher))])))),
     ("mainEntityOfPage", Some(JObj(Members([("@type", Str("WebPage")), ("@id", Str(p.url))]))))]
  }

  /** `ArticleSchema`. */
  function Article(p: ArticleProps): Json {
    JObj(Members(ArticleMembers(p)))
  }

  /** The article's image and modification date appear exactly when non-empty; the publication date always. */
  lemma ArticleOptional(p: ArticleProps)
    ensures var fs := Article(p).fields;
      && (Lookup(fs, "image").Some? <==> Truthy(p.image))
      && (Lookup(fs, "dateModified").Some? <==> Truthy(p.dateModified))
      && Lookup(fs, "datePublished") == Some(JStr(p.datePublished))
  {
    var ms := ArticleMembers(p);
    assert forall a, b :: 0 <= a < b < |ms| ==> ms[a].0 != ms[b].0;
    MembersLookup(ms, 4);
    MembersLookup(ms, 5);
    MembersLookup(ms, 6);
  }

  // ---------------------------------------------------------------- the site's own documents

  /** The texts of the site-wide documents in one language; `services` are the catalog's (name, description) pairs. */
  datatype SiteTexts = SiteTexts(organizationDescription: string, locality: string, region: string,
                                 businessDescription: string, catalogName: string, websiteDescription: string,
                                 services: seq<(string, string)>)

  const English := SiteTexts(
    "Leading IT company in Tajikistan. Web development, mobile apps, cloud solutions, and IT consulting in Dushanbe.",
    "Dushanbe", "Tajikistan",
    "IT company in Tajikistan: web development, mobile apps, cloud solutions, cybersecurity and IT consulting",
    "IT Services", "IT company in Tajikistan - web and app development in Dushanbe",
    [("Web Development", "Website and web application development with React, Next.js, Node.js"),
     ("Mobile Apps", "Mobile app development for iOS and Android"),
     ("UI/UX Design", "User interface and experience design"),
     ("Cloud Solutions", "Cloud infrastructure on AWS, Azure, Google Cloud"),
     ("Cybersecurity", "Security audits and data protection"),
     ("IT Consulting", "Strategic planning and digital transformation")])

  const Russian := SiteTexts(
    "Ведущая IT компания в Таджикистане. Разработка сайтов, мобильных приложений, облачные решения и IT консалтинг в Душанбе.",
    "Душанбе", "Таджикистан",
    "IT компания в Таджикистане: разработка сайтов, мобильных приложений, облачные решения, кибербезопасность и IT консалтинг",
    "IT Услуги", "IT компания в Таджикистане - разработка сайтов и приложений в Душанбе",
    [("Веб-разработка", "Разработка сайтов и веб-приложений на React, Next.js, Node.js"),
     ("Мобильные приложения", "Разработка мобильных приложений для iOS и Android"),
     ("UI/UX Дизайн", "Дизайн пользовательских интерфейсов и опыта"),
     ("Облачные решения", "Облачная инфраструктура на AWS, Azure, Google Cloud"),
     ("Кибербезопасность", "Аудит безопасности и защита данных"),
     ("IT Консалтинг", "Стратегическое планирование и цифровая трансформация")])

  /** `isRussian`: the Russian texts for "ru", the English texts for every other locale. */
  function TextsFor(locale: string): SiteTexts {
    if locale == "ru" then Russian else English
  }

  /** `NEXT_PUBLIC_SITE_URL || "https://itlsolutions.net"`. */
  function SiteUrl(configured: Option<string>): (u: string)
    ensures Truthy(configured) ==> u == configured.value
    ensures !Truthy(configured) ==> u == "https://itlsolutions.net"
  {
    OrElse(configured, "https://itlsolutions.net")
  }

  function SiteOrganizationMembers(u: string, t: SiteTexts): seq<(string, Option<Json>)> {
    [("@context", Str(Context)), ("@type", Str("Organization")), ("@id", Str(u + "#organization")),
     ("name", Str("ITL Solutions")), ("url", Str(u)), ("logo", Str(u + "/logo.png")),
     ("description", Str(t.organizationDescription)),
     ("address", Some(AddressJson(Address(None, t.locality, None, None, "TJ")))),
     ("areaServed", Some(JArr([JObj([("@type", JStr("Country")), ("name", JStr("Tajikistan"))]),
                               JObj([("@type", JStr("GeoCircle")), ("name", JStr("Central Asia"))])]))),
     ("knowsLanguage", Some(StrArray(["en", "ru"]))),
     ("sameAs", Some(StrArray(["https://github.com/itlsolutions", "https://linkedin.com/company/itlsolutions"])))]
  }

  /** The site's organization document. */
  function SiteOrganization(locale: string, configured: Option<string>): Json {
    JObj(Members(SiteOrganizationMembers(SiteUrl(configured), TextsFor(locale))))
  }

  function SiteWebsiteMembers(u: string, t: SiteTexts): seq<(string, Option<Json>)> {
    [("@context", Str(Context)), ("@type", Str("WebSite")), ("@id", Str(u + "#website")),
     ("name", Str("ITL Solutions")), ("url", Str(u)), ("description", Str(t.websiteDescription)),
     ("inLanguage", Some(StrArray(["en", "ru"]))),
     ("publisher", Some(JObj(Members([("@id", Str(u + "#organization"))]))))]
  }

  /** The site's website document, whose publisher refers to the organization by its `@id`. */
  function SiteWebsite(locale: string, configured: Option<string>): Json {
    JObj(Members(SiteWebsiteMembers(SiteUrl(configured), TextsFor(locale))))
  }

  /** One entry of the site's offer catalog: an offered service with its name and description. */
  function SiteOffer(service: (string, string)): Json {
    JObj([("@type", JStr("Offer")),
          ("itemOffered", JObj([("@type", JStr("Service")), ("name", JStr(service.0)), ("description", JStr(service.1))]))])
  }

  function SiteOffers(services: seq<(string, string)>): (r: seq<Json>)
    ensures |r| == |services|
    ensures forall k :: 0 <= k < |services| ==> r[k] == SiteOffer(services[k])
  {
    seq(|services|, k requires 0 <= k < |services| => SiteOffer(services[k]))
  }

  function SiteCatalog(t: SiteTexts): Json {
    JObj([("@type", JStr("OfferCatalog")), ("name", JStr(t.catalogName)), ("itemListElement", JArr(SiteOffers(t.services)))])
  }

  function SiteLocalBusinessMembers(u: string, t: SiteTexts): seq<(string, Option<Json>)> {
    [("@context", Str(Context)), ("@type", Str("ProfessionalService")), ("@id", Str(u + "#localbusiness")),
     ("name", Str("ITL Solutions")), ("description", Str(t.businessDescription)), ("url", Str(u)),
     ("image", Str(u + "/og-image.png")),
     ("address", Some(AddressJson(Address(None, t.locality, Some(t.region), None, "TJ")))),
     ("geo", Some(JObj([("@type", JStr("GeoCoordinates")), ("latitude", JNum(38.5598)), ("longitude", JNum(68.7738))]))),
     ("areaServed", Some(StrArray(["Tajikistan", "Central Asia", "CIS"]))),
     ("hasOfferCatalog", Some(SiteCatalog(t)))]
  }

  /** The site's local-business document: a professional service in Dushanbe with its catalog of IT services. */
  function SiteLocalBusiness(locale: string, configured: Option<string>): Json {
    JObj(Members(SiteLocalBusinessMembers(SiteUrl(configured), TextsFor(locale))))
  }

  /** The Russian texts are chosen exactly for the locale "ru", the English ones for every other locale. */
  lemma TextsForLocale(locale: string)
    ensures (TextsFor(locale) == Russian) <==> locale == "ru"
    ensures (TextsFor(locale) == English) <==> locale != "ru"
  {
    assert English.locality[0] == 'D';
  }

  lemma SiteOrganizationLookups(u: string, t: SiteTexts)
    ensures var fs := Members(SiteOrganizationMembers(u, t));
      && Lookup(fs, "@id") == Some(JStr(u + "#organization"))
      && Lookup(fs, "description") == Some(JStr(t.organizationDescription))
  {
    var ms := SiteOrganizationMembers(u, t);
    assert forall a, b :: 0 <= a < b < |ms| ==> ms[a].0 != ms[b].0;
    MembersLookup(ms, 2);
    MembersLookup(ms, 6);
  }

  lemma SiteLocalBusinessLookups(u: string, t: SiteTexts)
    ensures var fs := Members(SiteLocalBusinessMembers(u, t));
      && Lookup(fs, "@id") == Some(JStr(u + "#localbusiness"))
      && Lookup(fs, "description") == Some(JStr(t.businessDescription))
      && Lookup(fs, "address") == Some(AddressJson(Address(None, t.locality, Some(t.region), None, "TJ")))
      && Lookup(fs, "hasOfferCatalog") == Some(SiteCatalog(t))
  {
    var ms := SiteLocalBusinessMembers(u, t);
    assert forall a, b :: 0 <= a < b < |ms| ==> ms[a].0 != ms[b].0;
    MembersLookup(ms, 2);
    MembersLookup(ms, 4);
    MembersLookup(ms, 7);
    MembersLookup(ms, 10);
  }

  /** The business address names the locality and the region of the locale's texts, in Tajikistan. */
  lemma SiteBusinessAddress(t: SiteTexts)
    ensures var fs := AddressJson(Address(None, t.locality, Some(t.region), None, "TJ")).fields;
      && Lookup(fs, "addressLocality") == Some(JStr(t.locality))
      && Lookup(fs, "addressRegion") == Some(JStr(t.region))
      && Lookup(fs, "addressCountry") == Some(JStr("TJ"))
      && Lookup(fs, "streetAddress").None?
  {
    var a := Address(None, t.locality, Some(t.region), None, "TJ");
    var ms: seq<(string, Option<Json>)> :=
      [("@type", Str("PostalAddress")), ("streetAddress", StrIfGiven(a.streetAddress)),
       ("addressLocality", Str(a.addressLocality)), ("addressRegion", StrIfGiven(a.addressRegion)),
       ("postalCode", StrIfGiven(a.postalCode)), ("addressCountry", Str(a.addressCountry))];
    assert forall i, j :: 0 <= i < j < |ms| ==> ms[i].0 != ms[j].0;
    MembersLookup(ms, 1);
    MembersLookup(ms, 2);
    MembersLookup(ms, 3);
    MembersLookup(ms, 5);
  }

  /** The catalog carries the locale's name and lists the locale's services in order, each with its name and description. */
  lemma SiteCatalogLists(t: SiteTexts, k: nat)
    requires k < |t.services|
    ensures Lookup(SiteCatalog(t).fields, "name") == Some(JStr(t.catalogName))
    ensures var items := Lookup(SiteCatalog(t).fields, "itemListElement");
      && items.Some? && items.value.JArr? && |items.value.items| == |t.services|
      && items.value.items[k].JObj?
      && Lookup(items.value.items[k].fields, "itemOffered").Some?
      && Lookup(Lookup(items.value.items[k].fields, "itemOffered").value.fields, "name") == Some(JStr(t.services[k].0))
      && Lookup(Lookup(items.value.items[k].fields, "itemOffered").value.fields, "description") == Some(JStr(t.services[k].1))
  {
    assert SiteOffers(t.services)[k] == SiteOffer(t.services[k]);
  }

  /** Each locale's catalog lists the same six services: web, mobile, design, cloud, security and consulting. */
  lemma SiteServicesPerLocale(locale: string)
    ensures |TextsFor(locale).services| == 6
    ensures locale == "ru" ==> TextsFor(locale).services[4].0 == "Кибербезопасность"
    ensures locale != "ru" ==> TextsFor(locale).services[4].0 == "Cybersecurity"
  {
  }

  lemma SiteWebsitePublisher(u: string, t: SiteTexts)
    ensures var fs := Members(SiteWebsiteMembers(u, t));
      && Lookup(fs, "publisher").Some? && Lookup(fs, "publisher").value.JObj?
      && Lookup(Lookup(fs, "publisher").value.fields, "@id") == Some(JStr(u + "#organization"))
  {
    var ms := SiteWebsiteMembers(u, t);
    var pm: seq<(string, Option<Json>)> := [("@id", Str(u + "#organization"))];
    assert forall a, b :: 0 <= a < b < |ms| ==> ms[a].0 != ms[b].0;
    MembersLookup(ms, 7);
    MembersLookup(pm, 0);
  }

  /**
   * The site's three documents: the organization carries the locale's
   * description; the local business has its own `@id`, the locale's
   * description, region and catalog name; the website's publisher is the
   * organization's own `@id`; all built from the configured site URL or
   * the default one.
   */
  lemma SiteDocuments(locale: string, configured: Option<string>)
    ensures var org := SiteOrganization(locale, configured).fields;
      var biz := SiteLocalBusiness(locale, configured).fields;
      var web := SiteWebsite(locale, configured).fields;
      var t := TextsFor(locale);
      && Lookup(org, "@id") == Some(JStr(SiteUrl(configured) + "#organization"))
      && Lookup(org, "description") == Some(JStr(t.organizationDescription))
      && Lookup(biz, "@id") == Some(JStr(SiteUrl(configured) + "#localbusiness"))
      && Lookup(biz, "description") == Some(JStr(t.businessDescription))
      && Lookup(biz, "address").Some? && Lookup(biz, "address").value.JObj?
      && Lookup(Lookup(biz, "address").value.fields, "addressRegion") == Some(JStr(t.region))
      && Lookup(biz, "hasOfferCatalog").Some? && Lookup(biz, "hasOfferCatalog").value.JObj?
      && Lookup(Lookup(biz, "hasOfferCatalog").value.fields, "name") == Some(JStr(t.catalogName))
      && Lookup(web, "publisher").Some? && Lookup(web, "publisher").value.JObj?
      && Lookup(Lookup(web, "publisher").value.fields, "@id") == Lookup(org, "@id")
  {
    var u, t := SiteUrl(configured), TextsFor(locale);
    SiteOrganizationLookups(u, t);
    SiteLocalBusinessLookups(u, t);
    SiteBusinessAddress(t);
    SiteServicesPerLocale(locale);
    SiteCatalogLists(t, 0);
    SiteWebsitePublisher(u, t);
  }
}
