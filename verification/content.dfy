/** The content provider's document store: a map from page name to a
    document of title, subtitle and sections, the four editing operations,
    reset, import and export, and how the provider mirrors the content into
    browser storage under one key. */
module ContentModel {
  import opened Wrappers
  import opened Json

  /** An image attached to a section; its id is a clock value. */
  datatype Image = Image(id: int, url: string, name: string)

  /** A section; `images` is absent on the shipped sections. */
  datatype Section = Section(id: string, title: string, content: string, images: Option<seq<Image>>)

  /** A document. Each field may be absent: a document created by a field
      merge into a page that did not exist has only the merged fields. The
      same shape is the argument of a document merge. */
  datatype Document = Document(title: Option<string>, subtitle: Option<string>, sections: Option<seq<Section>>)

  type Content = map<string, Document>

  const NoDocument := Document(None, None, None)

  /** `{...prev[page]}`: an absent page spreads to nothing. */
  function Lookup(c: Content, page: string): Document {
    if page in c then c[page] else NoDocument
  }

  /** One field of an object spread `{...base, ...patch}`. */
  function Override<T>(base: Option<T>, patch: Option<T>): Option<T> {
    if patch.Some? then patch else base
  }

  // ---- updateContent ----

  /** `updateContent(page, data)`: the fields present in `data` replace the
      page's fields, the others are kept; every other page is unchanged. A
      page that did not exist is created holding only the merged fields. */
  function UpdateContent(c: Content, page: string, patch: Document): (r: Content)
    ensures r.Keys == c.Keys + {page}
    ensures forall q :: q in c && q != page ==> r[q] == c[q]
    ensures patch.title.Some? ==> r[page].title == patch.title
    ensures patch.title.None? ==> r[page].title == Lookup(c, page).title
    ensures patch.subtitle.Some? ==> r[page].subtitle == patch.subtitle
    ensures patch.subtitle.None? ==> r[page].subtitle == Lookup(c, page).subtitle
    ensures patch.sections.Some? ==> r[page].sections == patch.sections
    ensures patch.sections.None? ==> r[page].sections == Lookup(c, page).sections
  {
    var base := Lookup(c, page);
    c[page := Document(Override(base.title, patch.title), Override(base.subtitle, patch.subtitle),
                       Override(base.sections, patch.sections))]
  }

  /** Merging the same fields twice is the same as merging them once. */
  lemma {:induction false} UpdateContentIdempotent(c: Content, page: string, patch: Document)
    ensures UpdateContent(UpdateContent(c, page, patch), page, patch) == UpdateContent(c, page, patch)
  {
  }

  /** Merging a page's own fields back into it (what a title or subtitle
      edit that spreads the current document does before the edit) changes
      nothing. */
  lemma {:induction false} UpdateContentWithOwnFields(c: Content, page: string)
    requires page in c
    ensures UpdateContent(c, page, c[page]) == c
  {
  }

  // ---- updateSection ----

  /** The fields of a section merge (`{...section, ...data}`); the panels
      never pass an id. */
  datatype SectionPatch = SectionPatch(title: Option<string>, content: Option<string>, images: Option<seq<Image>>)

  function PatchSection(s: Section, p: SectionPatch): (r: Section)
    ensures r.id == s.id
  {
    Section(s.id, Override(Some(s.title), p.title).value, Override(Some(s.content), p.content).value,
            Override(s.images, p.images))
  }

  /** Whether a section's id is strictly equal to the target; `None` is
      `null`, which no section id equals. */
  predicate Targets(s: Section, target: Option<string>) {
    target == Some(s.id)
  }

  function MapSections(secs: seq<Section>, target: Option<string>, p: SectionPatch): seq<Section> {
    seq(|secs|, i requires 0 <= i < |secs| => if Targets(secs[i], target) then PatchSection(secs[i], p) else secs[i])
  }

  /** Whether a section operation on `page` can run: the source reads
      `prev[page].sections` and throws a TypeError when either is missing. */
  predicate HasSections(c: Content, page: string) {
    page in c && c[page].sections.Some?
  }

  /** `updateSection(page, target, data)`: every section whose id equals the
      target is merged with the patch, in place; the others, the count and
      the order are kept, as are the page's title and subtitle and every
      other page. `None` where the source throws. */
  function UpdateSection(c: Content, page: string, target: Option<string>, p: SectionPatch): (r: Option<Content>)
    ensures r.Some? <==> HasSections(c, page)
    ensures r.Some? ==> r.value.Keys == c.Keys
    ensures r.Some? ==>
      var before := c[page].sections.value;
      var after := r.value[page];
      && (forall q :: q in c && q != page ==> r.value[q] == c[q])
      && after.title == c[page].title && after.subtitle == c[page].subtitle
      && after.sections.Some? && |after.sections.value| == |before|
      && (forall i :: 0 <= i < |before| ==> after.sections.value[i].id == before[i].id)
      && (forall i :: 0 <= i < |before| && !Targets(before[i], target) ==> after.sections.value[i] == before[i])
      && (forall i :: 0 <= i < |before| && Targets(before[i], target) ==>
            after.sections.value[i] == PatchSection(before[i], p))
  {
    if !HasSections(c, page) then None
    else Some(c[page := c[page].(sections := Some(MapSections(c[page].sections.value, target, p)))])
  }

  /** When no section id equals the target, the content is unchanged. */
  lemma {:induction false} UpdateSectionNoMatch(c: Content, page: string, target: Option<string>, p: SectionPatch)
    requires HasSections(c, page)
    requires forall i :: 0 <= i < |c[page].sections.value| ==> !Targets(c[page].sections.value[i], target)
    ensures UpdateSection(c, page, target, p) == Some(c)
  {
    var secs := c[page].sections.value;
    assert forall i :: 0 <= i < |secs| ==> MapSections(secs, target, p)[i] == secs[i];
    assert MapSections(secs, target, p) == secs;
    assert c[page].(sections := Some(secs)) == c[page];
    assert c[page := c[page]] == c;
  }

  /** Applying the same section merge twice is the same as applying it once. */
  lemma {:induction false} UpdateSectionIdempotent(c: Content, page: string, target: Option<string>, p: SectionPatch)
    requires HasSections(c, page)
    ensures var once := UpdateSection(c, page, target, p).value;
            UpdateSection(once, page, target, p) == Some(once)
  {
    var once := UpdateSection(c, page, target, p).value;
    var secs := once[page].sections.value;
    assert forall i :: 0 <= i < |secs| ==> MapSections(secs, target, p)[i] == secs[i];
    assert MapSections(secs, target, p) == secs;
    assert once[page].(sections := Some(secs)) == once[page];
    assert once[page := once[page]] == once;
  }

  // ---- addSection ----

  /** `addSection(page, section)`: appends the section; the old list is a
      prefix of the new one; title, subtitle and other pages are kept. */
  function AddSection(c: Content, page: string, s: Section): (r: Option<Content>)
    ensures r.Some? <==> HasSections(c, page)
    ensures r.Some? ==> r.value.Keys == c.Keys
    ensures r.Some? ==>
      var before := c[page].sections.value;
      var after := r.value[page];
      && (forall q :: q in c && q != page ==> r.value[q] == c[q])
      && after.title == c[page].title && after.subtitle == c[page].subtitle
      && after.sections.Some? && |after.sections.value| == |before| + 1
      && after.sections.value[..|before|] == before
      && after.sections.value[|before|] == s
  {
    if !HasSections(c, page) then None
    else Some(c[page := c[page].(sections := Some(c[page].sections.value + [s]))])
  }

  // ---- deleteSection ----

  /** The sections whose id differs from `id`, in their original order. */
  function RemoveId(secs: seq<Section>, id: string): (r: seq<Section>)
    ensures |r| <= |secs|
    ensures forall k :: 0 <= k < |r| ==> r[k].id != id
    ensures forall s :: s in r <==> s in secs && s.id != id
  {
    if |secs| == 0 then []
    else if secs[0].id == id then RemoveId(secs[1..], id)
    else [secs[0]] + RemoveId(secs[1..], id)
  }

  /** Removal works piecewise: the kept sections of a concatenation are the
      kept sections of each part, in order. */
  lemma {:induction false} RemoveIdConcat(a: seq<Section>, b: seq<Section>, id: string)
    ensures RemoveId(a + b, id) == RemoveId(a, id) + RemoveId(b, id)
  {
    if |a| > 0 {
      assert (a + b)[0] == a[0];
      assert (a + b)[1..] == a[1..] + b;
      RemoveIdConcat(a[1..], b, id);
      if a[0].id != id {
        assert [a[0]] + (RemoveId(a[1..], id) + RemoveId(b, id))
            == ([a[0]] + RemoveId(a[1..], id)) + RemoveId(b, id);
      }
    } else {
      assert a + b == b;
    }
  }

  /** A list with no section of that id is left as it is. */
  lemma {:induction false} RemoveIdNoMatch(secs: seq<Section>, id: string)
    requires forall k :: 0 <= k < |secs| ==> secs[k].id != id
    ensures RemoveId(secs, id) == secs
  {
    if |secs| > 0 {
      RemoveIdNoMatch(secs[1..], id);
    }
  }

  /** `deleteSection(page, id)`: drops every section with that id and keeps
      the others in order; title, subtitle and other pages are kept. */
  function DeleteSection(c: Content, page: string, id: string): (r: Option<Content>)
    ensures r.Some? <==> HasSections(c, page)
    ensures r.Some? ==> r.value.Keys == c.Keys
    ensures r.Some? ==>
      var after := r.value[page];
      && (forall q :: q in c && q != page ==> r.value[q] == c[q])
      && after.title == c[page].title && after.subtitle == c[page].subtitle
      && after.sections == Some(RemoveId(c[page].sections.value, id))
  {
    if !HasSections(c, page) then None
    else Some(c[page := c[page].(sections := Some(RemoveId(c[page].sections.value, id)))])
  }

  /** Deleting a freshly added section by its id undoes the addition, when no
      section already on the page had that id. */
  lemma {:induction false} DeleteUndoesAdd(c: Content, page: string, s: Section)
    requires HasSections(c, page)
    requires forall k :: 0 <= k < |c[page].sections.value| ==> c[page].sections.value[k].id != s.id
    ensures AddSection(c, page, s).Some?
    ensures DeleteSection(AddSection(c, page, s).value, page, s.id) == Some(c)
  {
    var secs := c[page].sections.value;
    RemoveIdConcat(secs, [s], s.id);
    RemoveIdNoMatch(secs, s.id);
    assert RemoveId([s], s.id) == [];
    assert RemoveId(secs + [s], s.id) == secs;
    var added := AddSection(c, page, s).value;
    assert added == c[page := c[page].(sections := Some(secs + [s]))];
    assert added[page].(sections := Some(secs)) == c[page];
    assert added[page := c[page]] == c;
  }

  /** `defaultContent`: the four shipped documents. */
  const DefaultContent: Content := map[
    "technicalWhitepaper" := Document(Some("Technical Whitepaper"), Some("Xandeum Finance: Decentralized Personal Finance Management"), Some([
      Section("executive-summary", "Executive Summary",
        "Xandeum Finance represents a paradigm shift in personal financial management, leveraging Xandeum's revolutionary storage layer to create the first truly decentralized, comprehensive financial platform. Unlike traditional financial applications that rely on centralized databases and limited storage capacity, Xandeum Finance harnesses the power of exabyte-scale storage, smart contract native architecture, and random access capabilities to deliver unprecedented financial insights and automation.\n\nThe platform addresses critical limitations in current personal finance solutions: data silos, limited historical analysis, security vulnerabilities, and lack of true user ownership. By building on Xandeum's storage trilemma solution, we enable users to maintain complete control over their financial data while accessing sophisticated analytics previously available only to institutional investors.\n\nKey innovations include real-time cross-platform data aggregation, AI-powered predictive analytics with unlimited historical context, automated financial rule execution through smart contracts, and decentralized identity management. The system supports comprehensive portfolio tracking across traditional investments, cryptocurrencies, real estate, and alternative assets, providing a unified view of net worth and financial health.",
        None),
      Section("technical-architecture", "Technical Architecture",
        "Our technical architecture implements a four-layer approach: the Storage Abstraction Layer interfaces with Xandeum's decentralized storage, the Financial Processing Engine handles data ingestion and analysis, the Business Logic Layer manages financial algorithms and smart contracts, and the User Interface Layer provides intuitive access to complex financial insights. This design ensures scalability, security, and user experience excellence while maintaining full decentralization.",
        None)
    ])),
    "architectureOverview" := Document(Some("Architecture Overview"), Some("System Design and Component Interactions"), Some([
      Section("system-architecture", "System Architecture",
        "Xandeum Finance employs a microservices architecture optimized for scalability, maintainability, and performance. The system is designed to handle millions of users while maintaining sub-second response times for complex financial queries.\n\nThe architecture follows domain-driven design principles, with clear boundaries between financial data management, user authentication, portfolio analysis, and external integrations. Each service operates independently while communicating through well-defined APIs and event streams.\n\nCore services include the User Management Service for authentication and profile management, the Data Ingestion Service for connecting to external financial institutions, the Transaction Processing Service for data normalization and categorization, the Portfolio Analytics Service for investment analysis, and the Notification Service for real-time updates.",
        None),
      Section("deployment-scalability", "Deployment & Scalability",
        "Deployment utilizes containerized services with orchestration through Kubernetes, enabling automatic scaling, rolling updates, and fault tolerance. The infrastructure adapts to user demand while maintaining cost efficiency and system reliability.",
        None)
    ])),
    "xandeumIntegration" := Document(Some("Xandeum Integration"), Some("Leveraging Decentralized Storage Capabilities"), Some([
      Section("storage-layer-integration", "Storage Layer Integration",
        "Xandeum Finance's integration with Xandeum's storage layer represents the core innovation that enables unprecedented capabilities in personal finance management. The integration leverages Xandeum's unique architecture to solve fundamental limitations in traditional financial applications.\n\nThe Storage Abstraction Layer provides a unified interface to Xandeum's decentralized storage network while abstracting the underlying blockchain complexity from application components. This layer handles data encryption, distribution across pNodes, and retrieval optimization while maintaining compatibility with existing application architectures.\n\nData distribution utilizes Xandeum's pNode network to ensure high availability and fault tolerance. Financial data is automatically replicated across multiple geographic regions with cryptographic verification ensuring data integrity. The system can continue operating even if individual pNodes become unavailable.",
        None),
      Section("encryption-privacy", "Encryption & Privacy",
        "Encryption implementation uses client-side encryption with user-controlled keys, ensuring that financial data remains private even from platform operators. The encryption layer integrates seamlessly with Xandeum's storage protocols while maintaining optimal performance for real-time operations.",
        None),
      Section("caching-performance", "Caching & Performance",
        "Caching strategies optimize performance by maintaining frequently accessed data in high-speed local storage while leveraging Xandeum's random access capabilities for comprehensive historical queries. The system intelligently prefetches data based on user behavior patterns and analytical requirements.\n\nData lifecycle management implements automated policies for data retention, archival, and deletion based on user preferences and regulatory requirements. The system can maintain decades of financial history while ensuring compliance with privacy regulations.",
        None)
    ])),
    "financialFeatures" := Document(Some("Financial Features"), Some("Comprehensive Personal Finance Management Capabilities"), Some([
      Section("account-aggregation", "Account Aggregation",
        "Xandeum Finance provides comprehensive account aggregation that connects all financial accounts into a unified dashboard, enabling complete visibility across traditional banking, investment accounts, cryptocurrency holdings, and alternative assets.\n\nBank account integration supports checking, savings, money market, and certificate of deposit accounts from thousands of financial institutions worldwide. The platform utilizes Open Banking APIs, direct bank connections, and aggregation services to ensure reliable data access while maintaining security and user privacy.\n\nInvestment account connectivity includes brokerage accounts, retirement accounts (401k, IRA, Roth IRA), pension plans, and employer-sponsored investment programs. The system tracks positions, performance, dividends, and tax implications across all investment vehicles.",
        None),
      Section("cryptocurrency-integration", "Cryptocurrency Integration",
        "Cryptocurrency integration supports major exchanges, DeFi protocols, and hardware wallets. The platform tracks cryptocurrency holdings, staking rewards, DeFi yield farming, and NFT collections while providing comprehensive tax reporting for digital asset transactions.",
        None),
      Section("real-estate-alternative", "Real Estate & Alternative Investments",
        "Real estate tracking includes primary residences, investment properties, REITs, and real estate crowdfunding platforms. The system monitors property values, rental income, expenses, and tax implications while providing comprehensive real estate portfolio analysis.\n\nAlternative investment support includes commodities, precious metals, collectibles, private equity, and peer-to-peer lending platforms. Users can manually input or connect to supported platforms to track these non-traditional investments.",
        None),
      Section("advanced-analytics", "Advanced Analytics",
        "Comprehensive portfolio analysis with performance tracking, risk assessment, and automated rebalancing recommendations. AI-powered insights help optimize investment strategies and identify opportunities for improved financial health.",
        None)
    ]))
  ]

  // ---- the provider ----

  /** The storage key the provider reads on mount and writes on change. */
  const StorageKey := "xandeum-content"

  /** The provider's state: the content, whether it is still the very
      default object (React skips re-rendering, and so the save effect, when
      state is set to the object it already holds), and browser storage. */
  datatype Provider = Provider(content: Content, pristine: bool, storage: Medium<Content>)

  /** The save-on-change effect: the content is written under the key. */
  function Persist(storage: Medium<Content>, c: Content): (s: Medium<Content>)
    ensures s.Keys == storage.Keys + {StorageKey}
    ensures Parse(s[StorageKey]) == Some(c)
    ensures forall k :: k in storage && k != StorageKey ==> s[k] == storage[k]
  {
    storage[StorageKey := Stringify(c)]
  }

  /** Mounting: stored text that is present, non-empty and parses replaces
      the defaults; anything else leaves the defaults in place. Either way the
      save effect then writes the shown content back under the key. */
  function Mount(storage: Medium<Content>): (p: Provider)
    ensures StorageKey in storage && storage[StorageKey].Encoded? ==>
              p.content == storage[StorageKey].value && !p.pristine
    ensures !(StorageKey in storage && storage[StorageKey].Encoded?) ==>
              p.content == DefaultContent && p.pristine
    ensures p.storage == Persist(storage, p.content)
  {
    var loaded := if StorageKey in storage && TextTruthy(storage[StorageKey]) then Parse(storage[StorageKey]) else None;
    match loaded
    case Some(c) => Provider(c, false, Persist(storage, c))
    case None => Provider(DefaultContent, true, Persist(storage, DefaultContent))
  }

  /** One of the four editing operations with its arguments. */
  datatype Edit =
    | MergeDocument(page: string, patch: Document)
    | MergeSection(page: string, target: Option<string>, sectionPatch: SectionPatch)
    | Append(page: string, section: Section)
    | Delete(page: string, id: string)

  function Apply(c: Content, e: Edit): Option<Content> {
    match e
    case MergeDocument(page, patch) => Some(UpdateContent(c, page, patch))
    case MergeSection(page, target, p) => UpdateSection(c, page, target, p)
    case Append(page, s) => AddSection(c, page, s)
    case Delete(page, id) => DeleteSection(c, page, id)
  }

  /** An edit through the context: the new content is shown and written to
      storage. `None` when the operation throws. */
  function Change(p: Provider, e: Edit): (r: Option<Provider>)
    ensures r.Some? <==> Apply(p.content, e).Some?
    ensures r.Some? ==> && r.value.content == Apply(p.content, e).value
                        && !r.value.pristine
                        && r.value.storage == Persist(p.storage, r.value.content)
  {
    match Apply(p.content, e)
    case Some(c) => Some(Provider(c, false, Persist(p.storage, c)))
    case None => None
  }

  /** `resetContent()`: the defaults are shown and the key is removed. When
      the content was not already the default object the save effect runs
      afterwards and writes the defaults back; otherwise the key stays
      removed. Other keys are untouched. */
  function Reset(p: Provider): (r: Provider)
    ensures r.content == DefaultContent && r.pristine
    ensures p.pristine ==> r.storage == p.storage - {StorageKey}
    ensures !p.pristine ==> r.storage == Persist(p.storage, DefaultContent)
  {
    var removed := p.storage - {StorageKey};
    if p.pristine then Provider(DefaultContent, true, removed)
    else Provider(DefaultContent, true, Persist(removed, DefaultContent))
  }

  datatype Imported = Imported(provider: Provider, ok: bool)

  /** `importContent(text)`: text that parses replaces the content wholesale
      (and is written to storage) and yields true; otherwise nothing changes
      and the result is false. */
  function Import(p: Provider, text: Text<Content>): (r: Imported)
    ensures r.ok <==> Parse(text).Some?
    ensures !r.ok ==> r.provider == p
    ensures r.ok ==> && r.provider.content == Parse(text).value
                     && !r.provider.pristine
                     && r.provider.storage == Persist(p.storage, r.provider.content)
  {
    match Parse(text)
    case Some(c) => Imported(Provider(c, false, Persist(p.storage, c)), true)
    case None => Imported(p, false)
  }

  /** `exportContent()`: the serialized content (the file download itself is
      browser I/O). */
  function Export(p: Provider): (t: Text<Content>)
    ensures Parse(t) == Some(p.content)
  {
    Stringify(p.content)
  }

  /** Importing an exported file, into any provider, shows exactly the content
      that was exported. */
  lemma {:induction false} ExportImportRoundTrip(p: Provider, q: Provider)
    ensures Import(q, Export(p)).ok && Import(q, Export(p)).provider.content == p.content
  {
  }

  /** The provider's invariant: storage holds what is shown, except right
      after a reset of the untouched defaults, when the key is absent and the
      defaults are shown. */
  predicate Mirrored(p: Provider) {
    && (p.pristine ==> p.content == DefaultContent)
    && ((StorageKey in p.storage && p.storage[StorageKey] == Encoded(p.content))
        || (p.pristine && StorageKey !in p.storage))
  }

  /** Every provider transition keeps the invariant. */
  lemma {:induction false} MirroredPreserved(p: Provider, e: Edit, text: Text<Content>, storage: Medium<Content>)
    requires Mirrored(p)
    ensures Mirrored(Mount(storage))
    ensures Change(p, e).Some? ==> Mirrored(Change(p, e).value)
    ensures Mirrored(Reset(p))
    ensures Mirrored(Import(p, text).provider)
  {
  }

  /** Reloading the page from the storage a provider leaves behind shows the
      same content the provider was showing. */
  lemma {:induction false} ReloadShowsSameContent(p: Provider)
    requires Mirrored(p)
    ensures Mount(p.storage).content == p.content
  {
  }

  /** After a reset, a reload shows the defaults, whatever the provider held
      before. */
  lemma {:induction false} ResetThenReload(p: Provider)
    ensures Mount(Reset(p).storage).content == DefaultContent
  {
  }

  /** A call a component makes into the context, or none. */
  datatype Call = NoCall | EditCall(edit: Edit) | ResetCall | ImportCall(text: Text<Content>)

  datatype Reply = Reply(provider: Provider, ok: bool)

  /** The provider after a call, with the boolean the call returns (true for
      calls that return nothing); `None` when the call throws. */
  function Dispatch(p: Provider, call: Call): (r: Option<Reply>)
    ensures call.NoCall? ==> r == Some(Reply(p, true))
    ensures call.EditCall? ==> (r.Some? <==> Change(p, call.edit).Some?)
    ensures call.EditCall? && r.Some? ==> r.value.provider == Change(p, call.edit).value
    ensures call.ResetCall? ==> r == Some(Reply(Reset(p), true))
    ensures call.ImportCall? ==> r == Some(Reply(Import(p, call.text).provider, Import(p, call.text).ok))
    ensures !call.EditCall? ==> r.Some?
  {
    match call
    case NoCall => Some(Reply(p, true))
    case EditCall(e) => (match Change(p, e) case Some(q) => Some(Reply(q, true)) case None => None)
    case ResetCall => Some(Reply(Reset(p), true))
    case ImportCall(text) => var i := Import(p, text); Some(Reply(i.provider, i.ok))
  }
}
