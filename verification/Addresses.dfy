/**
 * Event addresses: which lines become events, and under which address a moderator tag takes a
 * record down. The parsers and the renderer of the address format are parameters.
 */
module Addresses {
  import opened Wrappers

  datatype Resource =
    | User
    | Post(id: string)
    | Follow(id: string)
    | Mute(id: string)
    | Bookmark(id: string)
    | Tag(id: string)
    | File(id: string)
    | Feed(id: string)
    | Blob(id: string)
    | LastRead
    | Unknown

  /** What an address names: a pubky.app resource, or a tag stored by another application. */
  datatype Record =
    | PubkyApp(user: string, resource: Resource)
    | UniversalTag(user: string, app: string, tag: string)

  /** The address format: the extended parser, the pubky.app-only parser, and the renderer. */
  datatype Specs = Specs(
    parse: string -> Option<Record>,
    parsePubkyApp: string -> Option<(string, Resource)>,
    render: Record -> Option<string>)

  /** The two parsers agree on pubky.app, and a rendered address parses back to its record. */
  ghost predicate Lawful(specs: Specs) {
    && (forall uri :: specs.parsePubkyApp(uri) == PubkyAppPart(specs.parse(uri)))
    && (forall r :: specs.render(r).Some? ==> specs.parse(specs.render(r).value) == Some(r))
  }

  function PubkyAppPart(parsed: Option<Record>): Option<(string, Resource)> {
    match parsed
    case Some(PubkyApp(user, resource)) => Some((user, resource))
    case _ => None
  }

  datatype EventType = Put | Del

  datatype Event = Event(uri: string, kind: EventType, record: Record)

  datatype ParseResult = Parsed(event: Event) | Skipped | UnrecognizedUri

  datatype LineError = MalformedLine | UnknownType | UnknownResource

  /** The text before and after the first space. */
  function SplitOnce(line: string): Option<(string, string)> {
    if line == [] then None
    else if line[0] == ' ' then Some(([], line[1..]))
    else
      var rest :- SplitOnce(line[1..]);
      Some(([line[0]] + rest.0, rest.1))
  }

  function ParseEvent(specs: Specs, line: string): Result<ParseResult, LineError> {
    match SplitOnce(line)
    case None => Err(MalformedLine)
    case Some((kind, uri)) =>
      if kind == "PUT" then ParseEventParts(specs, Put, uri)
      else if kind == "DEL" then ParseEventParts(specs, Del, uri)
      else Err(UnknownType)
  }

  function ParseEventParts(specs: Specs, kind: EventType, uri: string): Result<ParseResult, LineError> {
    match specs.parse(uri)
    case None => Ok(UnrecognizedUri)
    case Some(record) =>
      if record.PubkyApp? && record.resource.Unknown? then Err(UnknownResource)
      else if record.PubkyApp? && (record.resource.LastRead? || record.resource.Feed? || record.resource.Blob?)
      then Ok(Skipped)
      else if specs.render(record) == Some(uri) then Ok(Parsed(Event(uri, kind, record)))
      else Ok(UnrecognizedUri)
  }

  /** The line an event is queued for retry under. */
  function Line(event: Event): string {
    (if event.kind.Put? then "PUT" else "DEL") + " " + event.uri
  }

  predicate IsTagStorageUri(specs: Specs, uri: string) {
    match specs.parse(uri)
    case Some(PubkyApp(_, Tag(_))) => true
    case Some(UniversalTag(_, _, _)) => true
    case _ => false
  }

  datatype Target = Profile(user: string) | TakeDown(uri: string) | Ignore

  datatype Unsupported = Unsupported

  function CanonicalTarget(specs: Specs, uri: string): Result<Target, Unsupported> {
    match specs.parse(uri)
    case None => Err(Unsupported)
    case Some(record) =>
      match specs.render(record)
      case None => Err(Unsupported)
      case Some(address) => Ok(TakeDown(address))
  }

  /** What the target of a moderator tag calls for. */
  function ModerationTarget(specs: Specs, uri: string): Result<Target, Unsupported> {
    if IsTagStorageUri(specs, uri) then CanonicalTarget(specs, uri)
    else
      match specs.parsePubkyApp(uri)
      case None => Err(Unsupported)
      case Some((user, resource)) =>
        if resource.User? then Ok(Profile(user))
        else if resource.Post? || resource.Tag? || resource.File? then CanonicalTarget(specs, uri)
        else Ok(Ignore)
  }

  datatype Removal = OfTag(uri: string) | OfPost(user: string, id: string) | OfFile(user: string, id: string) | Nothing

  /** Which delete handler a takedown at `uri` calls. */
  function RemovalAt(specs: Specs, uri: string): Result<Removal, Unsupported> {
    if IsTagStorageUri(specs, uri) then Ok(OfTag(uri))
    else
      match specs.parsePubkyApp(uri)
      case None => Err(Unsupported)
      case Some((user, Post(id))) => Ok(OfPost(user, id))
      case Some((_, Tag(_))) => Ok(OfTag(uri))
      case Some((user, File(id))) => Ok(OfFile(user, id))
      case Some(_) => Ok(Nothing)
  }

  /** Posts, files and tags of either kind are the records a takedown can name. */
  predicate Removable(record: Record) {
    record.UniversalTag? || record.resource.Post? || record.resource.Tag? || record.resource.File?
  }

  ghost predicate Accepted(specs: Specs, line: string, event: Event) {
    ParseEvent(specs, line) == Ok(Parsed(event))
  }

  /** A record has at most one address that events for it can carry: a corollary of the address format's laws. */
  lemma OneAddressPerRecord(specs: Specs, line1: string, e1: Event, line2: string, e2: Event)
    requires Lawful(specs) && Accepted(specs, line1, e1) && Accepted(specs, line2, e2)
    ensures e1.record == e2.record <==> e1.uri == e2.uri
  {
  }

  lemma {:induction false} SplitOnceAtSpace(kind: string, uri: string)
    requires ' ' !in kind
    ensures SplitOnce(kind + " " + uri) == Some((kind, uri))
  {
    var line := kind + " " + uri;
    if kind != [] {
      assert line[1..] == kind[1..] + " " + uri;
      SplitOnceAtSpace(kind[1..], uri);
      assert kind == [kind[0]] + kind[1..];
    } else {
      assert line[1..] == uri;
    }
  }

  lemma {:induction false} NoSpace(line: string)
    requires ' ' !in line
    ensures SplitOnce(line) == None
  {
    if line != [] {
      assert line[0] in line;
      NoSpace(line[1..]);
    }
  }

  /** Only the first space counts: what stands before it is the type, and all that follows the address. */
  lemma LineDecides(specs: Specs, kind: string, uri: string)
    requires ' ' !in kind
    ensures ParseEvent(specs, kind) == Err(MalformedLine)
    ensures kind == "PUT" ==> ParseEvent(specs, kind + " " + uri) == ParseEventParts(specs, Put, uri)
    ensures kind == "DEL" ==> ParseEvent(specs, kind + " " + uri) == ParseEventParts(specs, Del, uri)
    ensures kind != "PUT" && kind != "DEL" ==> ParseEvent(specs, kind + " " + uri) == Err(UnknownType)
  {
    NoSpace(kind);
    SplitOnceAtSpace(kind, uri);
  }

  /** Records whose events are handled. */
  predicate Handled(record: Record) {
    || record.UniversalTag?
    || record.resource.User? || record.resource.Post? || record.resource.Follow? || record.resource.Mute?
    || record.resource.Bookmark? || record.resource.Tag? || record.resource.File?
  }

  /** An address is accepted exactly when it is the one its handled record renders to. */
  lemma AddressDecides(specs: Specs, kind: EventType, uri: string, event: Event)
    ensures ParseEventParts(specs, kind, uri) == Ok(Parsed(event))
       <==> specs.parse(uri) == Some(event.record) && Handled(event.record)
            && specs.render(event.record) == Some(uri) && event.uri == uri && event.kind == kind
    ensures ParseEventParts(specs, kind, uri) == Err(UnknownResource)
       <==> exists user :: specs.parse(uri) == Some(PubkyApp(user, Unknown))
    ensures ParseEventParts(specs, kind, uri) == Ok(Skipped)
       <==> specs.parse(uri).Some? && !Handled(specs.parse(uri).value) && !specs.parse(uri).value.resource.Unknown?
  {
    match specs.parse(uri)
    case Some(PubkyApp(user, Unknown)) =>
    case _ =>
  }

  /** Profiles are told apart, other records are ignored, and what cannot be addressed is rejected. */
  lemma TargetDecides(specs: Specs, spelling: string, user: string)
    requires Lawful(specs)
    ensures ModerationTarget(specs, spelling) == Ok(Profile(user)) <==> specs.parse(spelling) == Some(PubkyApp(user, User))
    ensures ModerationTarget(specs, spelling) == Ok(Ignore)
       <==> specs.parse(spelling).Some? && !Removable(specs.parse(spelling).value) && !specs.parse(spelling).value.resource.User?
    ensures ModerationTarget(specs, spelling) == Err(Unsupported)
       <==> specs.parse(spelling).None?
            || (Removable(specs.parse(spelling).value) && specs.render(specs.parse(spelling).value).None?)
  {
  }

  /** An accepted event is read back from its own line, even when its address holds spaces. */
  lemma {:induction false} LineRoundTrip(specs: Specs, line: string, event: Event)
    requires Accepted(specs, line, event)
    ensures Accepted(specs, Line(event), event)
  {
    SplitOnceAtSpace(if event.kind.Put? then "PUT" else "DEL", event.uri);
  }

  /**
   * However the moderator spells the target, the address taken down is the one the events of
   * exactly that record carry. A corollary of the address format's laws.
   */
  lemma TakenDownAddress(specs: Specs, spelling: string, address: string, line: string, event: Event)
    requires Lawful(specs) && Accepted(specs, line, event)
    requires ModerationTarget(specs, spelling) == Ok(TakeDown(address))
    ensures event.uri == address <==> specs.parse(spelling) == Some(event.record)
  {
  }

  /** The removal deletes this record, which is at this address. */
  predicate Deletes(removal: Removal, record: Record, address: string) {
    match removal
    case OfPost(user, id) => record == PubkyApp(user, Post(id))
    case OfFile(user, id) => record == PubkyApp(user, File(id))
    case OfTag(uri) => uri == address && (record.UniversalTag? || record.resource.Tag?)
    case Nothing => false
  }

  /**
   * A tag takes something down exactly when it names a removable record that has an address; that
   * address is accepted as an event's, and removing it deletes that very record. A corollary, too.
   */
  lemma TakeDownIff(specs: Specs, spelling: string, address: string, kind: EventType)
    requires Lawful(specs)
    ensures ModerationTarget(specs, spelling) == Ok(TakeDown(address))
       <==> specs.parse(spelling).Some? && Removable(specs.parse(spelling).value)
            && specs.render(specs.parse(spelling).value) == Some(address)
    ensures ModerationTarget(specs, spelling) == Ok(TakeDown(address)) ==>
              var record := specs.parse(spelling).value;
              && ParseEventParts(specs, kind, address) == Ok(Parsed(Event(address, kind, record)))
              && RemovalAt(specs, address).Ok? && Deletes(RemovalAt(specs, address).value, record, address)
  {
  }
}
