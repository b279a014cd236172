/**
 * The admin collection routes for services, blog posts, team members and
 * portfolio projects: each schema with the defaults its create fills in,
 * the list ordering, the status codes, and the slug check that keeps
 * service slugs unique.
 */
module ContentApi {
  import opened Wrappers
  import opened Json
  import opened Schema
  import opened Ordering

  /** A collection route's reply. */
  datatype Reply<T> =
    | Unauthorized            // 401 "Unauthorized"
    | Listed(rows: seq<T>)    // 200
    | Created(row: T)         // 201
    | Invalid(error: string)  // 400
    | Failed(error: string)   // 500

  function Status<T>(r: Reply<T>): int {
    match r
    case Unauthorized => 401
    case Listed(_) => 200
    case Created(_) => 201
    case Invalid(_) => 400
    case Failed(_) => 500
  }

  const InvalidData := "Invalid data"
  const FailedToCreate := "Failed to create"

  // ---------------------------------------------------------------- services

  datatype ServiceInput = ServiceInput(title: string, slug: string, description: string, icon: string,
                                       features: seq<string>, order: Option<real>)

  datatype Service = Service(id: string, title: string, slug: string, description: string, icon: string,
                             features: seq<string>, order: real)

  /** `serviceSchema.parse`: four non-empty strings, a string array, an optional number. */
  function ParseService(body: Json): Option<ServiceInput> {
    match AsObject(body)
    case None => None
    case Some(fields) =>
      var title := RequiredString(fields, "title", 1);
      var slug := RequiredString(fields, "slug", 1);
      var description := RequiredString(fields, "description", 1);
      var icon := RequiredString(fields, "icon", 1);
      var features := StringArray(fields, "features", AnyString);
      var order := OptionalNumber(fields, "order");
      if title.Some? && slug.Some? && description.Some? && icon.Some? && features.Some? && order.Some?
      then Some(ServiceInput(title.value, slug.value, description.value, icon.value, features.value, order.value))
      else None
  }

  /** What the service schema demands and reads. */
  lemma ParseServiceMeaning(fields: Fields)
    ensures var r := ParseService(JObj(fields));
      && (r.Some? ==> r.value.title != "" && r.value.slug != "" && r.value.description != "" && r.value.icon != "")
      && (r.Some? ==> Lookup(fields, "slug") == Some(JStr(r.value.slug)))
      && (r.Some? ==> Lookup(fields, "features") == Some(StrArray(r.value.features)))
      && (r.Some? ==> (r.value.order.None? <==> Lookup(fields, "order").None?))
      && (Lookup(fields, "features").None? ==> r.None?)
  {
    var r := ParseService(JObj(fields));
    if r.Some? {
      assert r.value.slug == RequiredString(fields, "slug", 1).value;
      assert r.value.features == StringArray(fields, "features", AnyString).value;
      assert r.value.order == OptionalNumber(fields, "order").value;
    }
  }

  /** The service row `create` stores: `order ?? 0`. */
  function ServiceRow(id: string, d: ServiceInput): Service {
    Service(id, d.title, d.slug, d.description, d.icon, d.features, d.order.GetOr(0.0))
  }

  predicate SlugsUnique(rows: seq<Service>) {
    forall i, j :: 0 <= i < j < |rows| ==> rows[i].slug != rows[j].slug
  }

  /** `findUnique({ where: { slug } })`. */
  function FindBySlug(rows: seq<Service>, slug: string): (r: Option<Service>)
    ensures r.Some? ==> r.value in rows && r.value.slug == slug
    ensures r.None? <==> forall x :: x in rows ==> x.slug != slug
  {
    if rows == [] then None
    else if rows[0].slug == slug then Some(rows[0])
    else FindBySlug(rows[1..], slug)
  }

  /**
   * `POST /api/admin/services` as a transition of the table: 401 without
   * a session; a body that is not JSON, or a failed read or insert, is 500
   * "Failed to create service"; a body the schema refuses is 400 "Invalid
   * data"; a taken slug is 400 and creates nothing; otherwise the row is
   * appended with 201.
   */
  function ServicePost(rows: seq<Service>, session: bool, body: Option<Json>, id: string, available: bool)
    : (Reply<Service>, seq<Service>)
  {
    if !session then (Unauthorized, rows)
    else if body.None? then (Failed("Failed to create service"), rows)
    else match ParseService(body.value)
      case None => (Invalid(InvalidData), rows)
      case Some(d) =>
        if !available then (Failed("Failed to create service"), rows)
        else if FindBySlug(rows, d.slug).Some? then (Invalid("A service with this slug already exists"), rows)
        else (Created(ServiceRow(id, d)), rows + [ServiceRow(id, d)])
  }

  /** The service table, kept by the store. */
  class ServiceTable {
    var rows: seq<Service>

    constructor(rows0: seq<Service>)
      ensures rows == rows0
    {
      rows := rows0;
    }

    /** The check-then-insert of a create: look the slug up, then insert only when it is free. */
    method Post(session: bool, body: Option<Json>, id: string, available: bool) returns (reply: Reply<Service>)
      modifies this
      ensures (reply, rows) == ServicePost(old(rows), session, body, id, available)
    {
      if !session {
        return Unauthorized;
      }
      if body.None? {
        return Failed("Failed to create service");
      }
      var data := ParseService(body.value);
      if data.None? {
        return Invalid(InvalidData);
      }
      if !available {
        return Failed("Failed to create service");
      }
      var existing := FindBySlug(rows, data.value.slug);
      if existing.Some? {
        return Invalid("A service with this slug already exists");
      }
      var row := ServiceRow(id, data.value);
      rows := rows + [row];
      reply := Created(row);
    }
  }

  /**
   * A create never gives two services the same slug: it appends only when
   * no row has the new slug, so a table with unique slugs keeps them unique.
   */
  lemma ServicePostKeepsSlugsUnique(rows: seq<Service>, session: bool, body: Option<Json>, id: string, available: bool)
    requires SlugsUnique(rows)
    ensures SlugsUnique(ServicePost(rows, session, body, id, available).1)
  {
    var (reply, after) := ServicePost(rows, session, body, id, available);
    if reply.Created? {
      var d := ParseService(body.value).value;
      forall i, j | 0 <= i < j < |after| ensures after[i].slug != after[j].slug {
        if j == |rows| {
          assert after[i] == rows[i] && rows[i] in rows;
          assert after[j] == ServiceRow(id, d);
        } else {
          assert after[i] == rows[i] && after[j] == rows[j];
        }
      }
    }
  }

  /** The outcomes of a create, and what a 201 stores. */
  lemma ServicePostOutcome(rows: seq<Service>, session: bool, body: Option<Json>, id: string, available: bool)
    ensures var (reply, after) := ServicePost(rows, session, body, id, available);
      && (Status(reply) == 401 <==> !session)
      && (Status(reply) == 201 <==> session && body.Some? && ParseService(body.value).Some? && available
                                     && forall x :: x in rows ==> x.slug != ParseService(body.value).value.slug)
      && (reply.Created? ==> after == rows + [reply.row] && reply.row.id == id
                             && reply.row.slug == ParseService(body.value).value.slug
                             && reply.row.order == ParseService(body.value).value.order.GetOr(0.0))
      && (!reply.Created? ==> after == rows)
      && (session && body.Some? && ParseService(body.value).Some? && available
          && (exists x :: x in rows && x.slug == ParseService(body.value).value.slug)
          ==> reply == Invalid("A service with this slug already exists"))
  {
  }

  /** A create without `order` stores the service first in the ordering's default place, 0. */
  lemma ServiceOrderDefault(rows: seq<Service>, fields: Fields, id: string)
    requires Lookup(fields, "order").None?
    requires ServicePost(rows, true, Some(JObj(fields)), id, true).0.Created?
    ensures ServicePost(rows, true, Some(JObj(fields)), id, true).0.row.order == 0.0
  {
    ParseServiceMeaning(fields);
  }

  function OrderOf(s: Service): real {
    s.order
  }

  /** `GET /api/admin/services`: every service, by `order` ascending. */
  function ServiceList(session: bool, rows: seq<Service>): (r: Reply<Service>)
    ensures !session <==> r == Unauthorized
    ensures session ==> r.Listed? && multiset(r.rows) == multiset(rows) && Ascending(r.rows, OrderOf)
  {
    if !session then Unauthorized else Listed(SortAscending(rows, OrderOf))
  }

  // ---------------------------------------------------------------- creation, shared

  /**
   * The create routes without a uniqueness check: 401 without a session;
   * a body that is not JSON, or a failed insert, is 500 "Failed to
   * create"; a body the schema refuses is 400 "Invalid data"; otherwise
   * 201 with the row built from the parsed input.
   */
  function CreateReply<D, T>(session: bool, body: Option<Json>, parse: Json -> Option<D>, make: D -> T, available: bool)
    : (r: Reply<T>)
    ensures !session <==> r == Unauthorized
    ensures session && body.None? ==> r == Failed(FailedToCreate)
    ensures session && body.Some? && parse(body.value).None? ==> r == Invalid(InvalidData)
    ensures session && body.Some? && parse(body.value).Some? && !available ==> r == Failed(FailedToCreate)
    ensures r.Created? <==> session && body.Some? && parse(body.value).Some? && available
    ensures r.Created? ==> r.row == make(parse(body.value).value)
  {
    if !session then Unauthorized
    else if body.None? then Failed(FailedToCreate)
    else match parse(body.value)
      case None => Invalid(InvalidData)
      case Some(d) => if available then Created(make(d)) else Failed(FailedToCreate)
  }

  // ---------------------------------------------------------------- blog

  datatype BlogInput = BlogInput(title: string, slug: string, excerpt: string, content: string, category: string,
                                 image: string, readTime: real, published: Option<bool>)

  datatype BlogPost = BlogPost(id: string, title: string, slug: string, excerpt: string, content: string,
                               category: string, image: string, readTime: real, published: bool,
                               publishedAt: Option<int>, createdAt: int)

  /** `blogPostSchema.parse`: six non-empty strings, a read time of at least 1, an optional flag. */
  function ParseBlogPost(body: Json): Option<BlogInput> {
    match AsObject(body)
    case None => None
    case Some(fields) =>
      var title := RequiredString(fields, "title", 1);
      var slug := RequiredString(fields, "slug", 1);
      var excerpt := RequiredString(fields, "excerpt", 1);
      var content := RequiredString(fields, "content", 1);
      var category := RequiredString(fields, "category", 1);
      var image := RequiredString(fields, "image", 1);
      var readTime := RequiredNumber(fields, "readTime", 1.0);
      var published := OptionalBool(fields, "published");
      if title.Some? && slug.Some? && excerpt.Some? && content.Some? && category.Some? && image.Some?
         && readTime.Some? && published.Some?
      then Some(BlogInput(title.value, slug.value, excerpt.value, content.value, category.value, image.value,
                          readTime.value, published.value))
      else None
  }

  /** The post `create` stores at time `now`: `published ?? false`, and `publishedAt` now for a published post, else null. */
  function BlogRow(id: string, now: int, d: BlogInput): BlogPost {
    BlogPost(id, d.title, d.slug, d.excerpt, d.content, d.category, d.image, d.readTime,
             d.published.GetOr(false), if d.published == Some(true) then Some(now) else None, now)
  }

  /** `POST /api/admin/blog`. */
  function BlogCreate(session: bool, body: Option<Json>, id: string, now: int, available: bool): Reply<BlogPost> {
    CreateReply(session, body, ParseBlogPost, (d: BlogInput) => BlogRow(id, now, d), available)
  }

  /**
   * A created post is published only when the body says so; it carries a
   * publication time exactly when it is published, and that time is the
   * creation time. Its read time is at least 1 and its texts are non-empty.
   */
  lemma BlogCreateDefaults(session: bool, fields: Fields, id: string, now: int, available: bool)
    requires BlogCreate(session, Some(JObj(fields)), id, now, available).Created?
    ensures var p := BlogCreate(session, Some(JObj(fields)), id, now, available).row;
      && (p.published <==> Lookup(fields, "published") == Some(JBool(true)))
      && (p.publishedAt.Some? <==> p.published)
      && (p.publishedAt.Some? ==> p.publishedAt.value == now == p.createdAt)
      && p.readTime >= 1.0
      && p.title != "" && p.slug != "" && p.content != ""
  {
    var d := ParseBlogPost(JObj(fields)).value;
    assert d.published == OptionalBool(fields, "published").value;
    assert d.readTime == RequiredNumber(fields, "readTime", 1.0).value;
    assert d.title == RequiredString(fields, "title", 1).value;
    assert d.slug == RequiredString(fields, "slug", 1).value;
    assert d.content == RequiredString(fields, "content", 1).value;
  }

  function CreatedAtOf(p: BlogPost): real {
    p.createdAt as real
  }

  /** `GET /api/admin/blog`: every post, newest first. */
  function BlogList(session: bool, rows: seq<BlogPost>): (r: Reply<BlogPost>)
    ensures !session <==> r == Unauthorized
    ensures session ==> r.Listed? && multiset(r.rows) == multiset(rows) && Descending(r.rows, CreatedAtOf)
  {
    if !session then Unauthorized else Listed(SortDescending(rows, CreatedAtOf))
  }

  // ---------------------------------------------------------------- team

  datatype TeamInput = TeamInput(name: string, slug: string, role: string, department: string, bio: string,
                                 image: string, linkedin: Option<string>, github: Option<string>, order: Option<real>)

  datatype TeamMember = TeamMember(id: string, name: string, slug: string, role: string, department: string,
                                   bio: string, image: string, linkedin: Option<string>, github: Option<string>,
                                   order: real)

  /** `teamMemberSchema.parse`: six non-empty strings, two optional links, an optional number. */
  function ParseTeamMember(body: Json): Option<TeamInput> {
    match AsObject(body)
    case None => None
    case Some(fields) =>
      var name := RequiredString(fields, "name", 1);
      var slug := RequiredString(fields, "slug", 1);
      var role := RequiredString(fields, "role", 1);
      var department := RequiredString(fields, "department", 1);
      var bio := RequiredString(fields, "bio", 1);
      var image := RequiredString(fields, "image", 1);
      var linkedin := OptionalString(fields, "linkedin");
      var github := OptionalString(fields, "github");
      var order := OptionalNumber(fields, "order");
      if name.Some? && slug.Some? && role.Some? && department.Some? && bio.Some? && image.Some?
         && linkedin.Some? && github.Some? && order.Some?
      then Some(TeamInput(name.value, slug.value, role.value, department.value, bio.value, image.value,
                          linkedin.value, github.value, order.value))
      else None
  }

  /** The member row `create` stores: `order ?? 0`. */
  function TeamRow(id: string, d: TeamInput): TeamMember {
    TeamMember(id, d.name, d.slug, d.role, d.department, d.bio, d.image, d.linkedin, d.github, d.order.GetOr(0.0))
  }

  /** `POST /api/admin/team`. */
  function TeamCreate(session: bool, body: Option<Json>, id: string, available: bool): Reply<TeamMember> {
    CreateReply(session, body, ParseTeamMember, (d: TeamInput) => TeamRow(id, d), available)
  }

  /** A created member takes the body's `order`, or 0 without one; links are kept only when given. */
  lemma TeamCreateDefaults(session: bool, fields: Fields, id: string, available: bool)
    requires TeamCreate(session, Some(JObj(fields)), id, available).Created?
    ensures var m := TeamCreate(session, Some(JObj(fields)), id, available).row;
      && (Lookup(fields, "order").None? ==> m.order == 0.0)
      && (forall n :: Lookup(fields, "order") == Some(JNum(n)) ==> m.order == n)
      && (m.linkedin.None? <==> Lookup(fields, "linkedin").None?)
      && (m.github.None? <==> Lookup(fields, "github").None?)
      && m.name != "" && m.slug != ""
  {
    var d := ParseTeamMember(JObj(fields)).value;
    assert d.order == OptionalNumber(fields, "order").value;
    assert d.linkedin == OptionalString(fields, "linkedin").value;
    assert d.github == OptionalString(fields, "github").value;
    assert d.name == RequiredString(fields, "name", 1).value;
    assert d.slug == RequiredString(fields, "slug", 1).value;
  }

  function MemberOrderOf(m: TeamMember): real {
    m.order
  }

  /** `GET /api/admin/team`: every member, by `order` ascending. */
  function TeamList(session: bool, rows: seq<TeamMember>): (r: Reply<TeamMember>)
    ensures !session <==> r == Unauthorized
    ensures session ==> r.Listed? && multiset(r.rows) == multiset(rows) && Ascending(r.rows, MemberOrderOf)
  {
    if !session then Unauthorized else Listed(SortAscending(rows, MemberOrderOf))
  }

  // ---------------------------------------------------------------- portfolio

  datatype ProjectInput = ProjectInput(title: string, slug: string, category: string, description: string,
                                       content: string, image: string, technologies: seq<string>,
                                       featured: Option<bool>)

  datatype Project = Project(id: string, title: string, slug: string, category: string, description: string,
                             content: string, image: string, technologies: seq<string>, featured: bool,
                             createdAt: int)

  /** `projectSchema.parse`: six non-empty strings, a string array, an optional flag. */
  function ParseProject(body: Json): Option<ProjectInput> {
    match AsObject(body)
    case None => None
    case Some(fields) =>
      var title := RequiredString(fields, "title", 1);
      var slug := RequiredString(fields, "slug", 1);
      var category := RequiredString(fields, "category", 1);
      var description := RequiredString(fields, "description", 1);
      var content := RequiredString(fields, "content", 1);
      var image := RequiredString(fields, "image", 1);
      var technologies := StringArray(fields, "technologies", AnyString);
      var featured := OptionalBool(fields, "featured");
      if title.Some? && slug.Some? && category.Some? && description.Some? && content.Some? && image.Some?
         && technologies.Some? && featured.Some?
      then Some(ProjectInput(title.value, slug.value, category.value, description.value, content.value,
                             image.value, technologies.value, featured.value))
      else None
  }

  /** The project row `create` stores at time `now`: `featured ?? false`. */
  function ProjectRow(id: string, now: int, d: ProjectInput): Project {
    Project(id, d.title, d.slug, d.category, d.description, d.content, d.image, d.technologies,
            d.featured.GetOr(false), now)
  }

  /** `POST /api/admin/portfolio`. */
  function ProjectCreate(session: bool, body: Option<Json>, id: string, now: int, available: bool): Reply<Project> {
    CreateReply(session, body, ParseProject, (d: ProjectInput) => ProjectRow(id, now, d), available)
  }

  /** A created project is featured only when the body says so, and keeps the body's technologies. */
  lemma ProjectCreateDefaults(session: bool, fields: Fields, id: string, now: int, available: bool)
    requires ProjectCreate(session, Some(JObj(fields)), id, now, available).Created?
    ensures var p := ProjectCreate(session, Some(JObj(fields)), id, now, available).row;
      && (p.featured <==> Lookup(fields, "featured") == Some(JBool(true)))
      && Lookup(fields, "technologies") == Some(StrArray(p.technologies))
      && p.title != "" && p.slug != ""
  {
    var d := ParseProject(JObj(fields)).value;
    assert d.featured == OptionalBool(fields, "featured").value;
    assert d.technologies == StringArray(fields, "technologies", AnyString).value;
    assert d.title == RequiredString(fields, "title", 1).value;
    assert d.slug == RequiredString(fields, "slug", 1).value;
  }

  function ProjectCreatedAtOf(p: Project): real {
    p.createdAt as real
  }

  /** `GET /api/admin/portfolio`: every project, newest first. */
  function ProjectList(session: bool, rows: seq<Project>): (r: Reply<Project>)
    ensures !session <==> r == Unauthorized
    ensures session ==> r.Listed? && multiset(r.rows) == multiset(rows) && Descending(r.rows, ProjectCreatedAtOf)
  {
    if !session then Unauthorized else Listed(SortDescending(rows, ProjectCreatedAtOf))
  }
}
