/** The ingestion-pipeline plug-in of the metadata catalog's entity store.

    A pipeline entity is an object whose fields the repository updates in
    place: it derives the fully qualified name from the owning service,
    strips the relationship-derived fields before the body is persisted,
    records the service and owner as relationship edges, rebuilds them on
    read, detects field changes between an original and an updated pipeline,
    and asks the pipeline service client to deploy or delete the pipeline
    after a mutation. */
module IngestionPipelines {
  import opened Wrappers
  import opened JsonObjects
  import FullyQualifiedName

  type Uuid = nat

  /** Entity type name of ingestion pipelines. */
  const INGESTION_PIPELINE: string := "ingestionPipeline"

  /** Name of the owner field in a requested field list. */
  const FIELD_OWNER: string := "owner"

  // ---------------------------------------------------------------------------
  // Entity values
  // ---------------------------------------------------------------------------

  /** A typed pointer to another entity (a service, a user, a team). */
  datatype EntityReference = EntityReference(id: Uuid, entityType: string, fullyQualifiedName: string)

  /** Where a pipeline reads from: the service name, the source configuration
      and the service connection, the latter two as JSON objects. */
  datatype Source = Source(serviceName: string, sourceConfig: JsonObject, serviceConnection: JsonObject)

  /** Scheduling options of the orchestrator; `forceDeploy` is a nullable Boolean. */
  datatype AirflowConfig = AirflowConfig(
    forceDeploy: Option<bool>,
    pausePipeline: Option<bool>,
    scheduleInterval: Option<string>,
    concurrency: Option<int>)

  /** How the pipeline reaches the metadata server. */
  datatype OpenMetadataServerConnection = OpenMetadataServerConnection(hostPort: string, authProvider: string)

  datatype LogLevel = DEBUG | INFO | WARN | ERROR

  /** The old or new value carried by a change record. */
  datatype FieldValue =
    | SourceValue(source: Source)
    | AirflowConfigValue(airflowConfig: AirflowConfig)
    | ServerConnectionValue(connection: Option<OpenMetadataServerConnection>)
    | LogLevelValue(level: Option<LogLevel>)

  /** The fields the pipeline updater compares, in a typed form. */
  datatype Field = SourceField | AirflowConfigField | ServerConnectionField | LoggerLevelField

  /** The name a change record uses for a field. */
  function FieldName(f: Field): (name: string)
    ensures name in {"source", "airflowConfig", "openMetadataServerConnection", "loggerLevel"}
  {
    match f
    case SourceField => "source"
    case AirflowConfigField => "airflowConfig"
    case ServerConnectionField => "openMetadataServerConnection"
    case LoggerLevelField => "loggerLevel"
  }

  /** Distinct fields are recorded under distinct names. */
  lemma FieldNameIsInjective(f: Field, g: Field)
    requires FieldName(f) == FieldName(g)
    ensures f == g
  {
  }

  /** One field-level difference between two versions of a pipeline. */
  datatype FieldChange = FieldChange(field: Field, oldValue: FieldValue, newValue: FieldValue)
  {
    function Name(): string { FieldName(field) }
  }

  datatype ChangeDescription = ChangeDescription(fieldsUpdated: seq<FieldChange>)

  /** A snapshot of every field of a pipeline: what `store` serialises. The
      version is counted in minor-version ticks. */
  datatype PipelineData = PipelineData(
    id: Uuid,
    name: string,
    fullyQualifiedName: Option<string>,
    owner: Option<EntityReference>,
    service: Option<EntityReference>,
    href: Option<string>,
    source: Source,
    airflowConfig: AirflowConfig,
    openMetadataServerConnection: Option<OpenMetadataServerConnection>,
    loggerLevel: Option<LogLevel>,
    version: nat,
    changeDescription: Option<ChangeDescription>)

  /** The pipeline entity object, whose fields the repository sets in place. */
  class Pipeline {
    var id: Uuid
    var name: string
    var fullyQualifiedName: Option<string>
    var owner: Option<EntityReference>
    var service: Option<EntityReference>
    var href: Option<string>
    var source: Source
    var airflowConfig: AirflowConfig
    var openMetadataServerConnection: Option<OpenMetadataServerConnection>
    var loggerLevel: Option<LogLevel>
    var version: nat
    var changeDescription: Option<ChangeDescription>

    constructor (d: PipelineData)
      ensures Data() == d
    {
      id, name, fullyQualifiedName := d.id, d.name, d.fullyQualifiedName;
      owner, service, href := d.owner, d.service, d.href;
      source, airflowConfig := d.source, d.airflowConfig;
      openMetadataServerConnection, loggerLevel := d.openMetadataServerConnection, d.loggerLevel;
      version, changeDescription := d.version, d.changeDescription;
    }

    /** The current value of every field. */
    function Data(): PipelineData
      reads this
    {
      PipelineData(id, name, fullyQualifiedName, owner, service, href, source, airflowConfig,
                   openMetadataServerConnection, loggerLevel, version, changeDescription)
    }
  }

  // ---------------------------------------------------------------------------
  // Derived names
  // ---------------------------------------------------------------------------

  /** The FQN a pipeline gets from its service: absent when there is no
      pipeline or it has no service; otherwise the service's FQN extended by
      the pipeline name. */
  function GetFqn(p: Pipeline?): (fqn: Option<string>)
    reads p
    ensures fqn.Some? <==> p != null && p.service.Some?
    ensures fqn.Some? ==>
      var parent := p.service.value.fullyQualifiedName;
      && |fqn.value| == |parent| + 1 + |p.name|
      && fqn.value[..|parent|] == parent
      && fqn.value[|parent|] == FullyQualifiedName.Separator
      && fqn.value[|parent| + 1..] == p.name
  {
    if p != null && p.service.Some? then
      Some(FullyQualifiedName.Add(p.service.value.fullyQualifiedName, p.name))
    else
      None
  }

  /** The generic view of a pipeline that the base repository works through. */
  class IngestionPipelineEntityInterface {
    const entity: Pipeline

    constructor (entity: Pipeline)
      ensures this.entity == entity
    {
      this.entity := entity;
    }

    /** The stored FQN when there is one, else the one derived from the service;
        absent only when neither exists. */
    function GetFullyQualifiedName(): (fqn: Option<string>)
      reads entity
      ensures entity.fullyQualifiedName.Some? ==> fqn == entity.fullyQualifiedName
      ensures entity.fullyQualifiedName.None? ==> fqn == GetFqn(entity)
      ensures fqn.None? <==> entity.fullyQualifiedName.None? && entity.service.None?
    {
      if entity.fullyQualifiedName.Some? then entity.fullyQualifiedName else GetFqn(entity)
    }

    /** Installs the version and change description of a version transition
        and touches nothing else. */
    method SetChangeDescription(newVersion: nat, changeDescription: ChangeDescription)
      modifies entity
      ensures entity.Data() == old(entity.Data()).(version := newVersion, changeDescription := Some(changeDescription))
    {
      entity.version := newVersion;
      entity.changeDescription := Some(changeDescription);
    }
  }

  // ---------------------------------------------------------------------------
  // Change detection
  // ---------------------------------------------------------------------------

  /** The tracked fields in the order the updater compares them. */
  const TrackedFields: seq<Field> := [SourceField, AirflowConfigField, ServerConnectionField, LoggerLevelField]

  /** Position of a field in the comparison order. */
  function Rank(f: Field): (k: nat)
    ensures k < |TrackedFields| && TrackedFields[k] == f
  {
    match f
    case SourceField => 0
    case AirflowConfigField => 1
    case ServerConnectionField => 2
    case LoggerLevelField => 3
  }

  /** The source is a composite: a different service name, or a source
      configuration or service connection that is not structurally similar,
      changes it as a whole. */
  predicate SourceChanged(orig: Source, upd: Source)
    ensures orig == upd ==> !SourceChanged(orig, upd)
    ensures orig.serviceName != upd.serviceName ==> SourceChanged(orig, upd)
  {
    || orig.serviceName != upd.serviceName
    || !Similar(orig.sourceConfig, upd.sourceConfig)
    || !Similar(orig.serviceConnection, upd.serviceConnection)
  }

  /** Outcome of comparing a nullable field the way the updater's code does. */
  datatype NullableCheck = NoChange | Changed | NullPointerException

  /** The server-connection and log-level comparisons as written: an absent
      update is ignored, otherwise the original's `equals` is called, which
      throws when the original is absent. */
  function NullableCheckAsWritten<T(==)>(orig: Option<T>, upd: Option<T>): (c: NullableCheck)
    ensures c == NullPointerException <==> orig.None? && upd.Some?
    ensures c == Changed <==> orig.Some? && upd.Some? && orig.value != upd.value
  {
    if upd.None? then NoChange
    else if orig.None? then NullPointerException
    else if orig.value != upd.value then Changed
    else NoChange
  }

  /** The intended comparison of a nullable field: a present update that
      differs from the original, whether or not the original is present. */
  function NullableChanged<T(==)>(orig: Option<T>, upd: Option<T>): (changed: bool)
    ensures changed ==> upd.Some?
    ensures orig.None? && upd.Some? ==> changed
    ensures orig == upd ==> !changed
    ensures orig.Some? && upd.Some? ==> (changed <==> orig.value != upd.value)
  {
    upd.Some? && orig != upd
  }

  /** A pipeline whose original connection (or log level) is absent makes the
      as-written comparison throw, where a change is evidently meant. */
  lemma NullOriginalThrowsAsWritten<T>(upd: T)
    ensures NullableCheckAsWritten(None, Some(upd)) == NullPointerException
    ensures NullableChanged(None, Some(upd))
  {
  }

  /** Wherever the as-written comparison does not throw, it agrees with the
      intended one. */
  lemma NullableChangedAgreesAsWritten<T>(orig: Option<T>, upd: Option<T>)
    requires NullableCheckAsWritten(orig, upd) != NullPointerException
    ensures NullableChanged(orig, upd) <==> NullableCheckAsWritten(orig, upd) == Changed
  {
  }

  /** Whether a tracked field differs between the original and the update. */
  predicate FieldDiffers(f: Field, orig: PipelineData, upd: PipelineData)
  {
    match f
    case SourceField => SourceChanged(orig.source, upd.source)
    case AirflowConfigField => orig.airflowConfig != upd.airflowConfig
    case ServerConnectionField => NullableChanged(orig.openMetadataServerConnection, upd.openMetadataServerConnection)
    case LoggerLevelField => NullableChanged(orig.loggerLevel, upd.loggerLevel)
  }

  /** The value of a tracked field, as a change record carries it. */
  function FieldOf(p: PipelineData, f: Field): FieldValue
  {
    match f
    case SourceField => SourceValue(p.source)
    case AirflowConfigField => AirflowConfigValue(p.airflowConfig)
    case ServerConnectionField => ServerConnectionValue(p.openMetadataServerConnection)
    case LoggerLevelField => LogLevelValue(p.loggerLevel)
  }

  /** A change record is faithful when it names a field that differs and
      carries that field's old and new values. */
  predicate Faithful(c: FieldChange, orig: PipelineData, upd: PipelineData)
  {
    && FieldDiffers(c.field, orig, upd)
    && c.oldValue == FieldOf(orig, c.field)
    && c.newValue == FieldOf(upd, c.field)
  }

  /** The fields a list of change records mentions. */
  function ChangedFields(changes: seq<FieldChange>): set<Field>
  {
    set c | c in changes :: c.field
  }

  /** The record (if any) that one field contributes. */
  function ChangeOf(f: Field, orig: PipelineData, upd: PipelineData): seq<FieldChange>
  {
    if FieldDiffers(f, orig, upd) then [FieldChange(f, FieldOf(orig, f), FieldOf(upd, f))] else []
  }

  /** The change records one update produces, one comparison per tracked
      field in comparison order. */
  function Diff(orig: PipelineData, upd: PipelineData): (changes: seq<FieldChange>)
    ensures |changes| <= |TrackedFields|
  {
    ChangeOf(SourceField, orig, upd) + ChangeOf(AirflowConfigField, orig, upd)
    + ChangeOf(ServerConnectionField, orig, upd) + ChangeOf(LoggerLevelField, orig, upd)
  }

  /** Every record of an update names a field that differs and carries that
      field's old and new values. */
  lemma DiffIsSound(orig: PipelineData, upd: PipelineData)
    ensures forall c | c in Diff(orig, upd) :: Faithful(c, orig, upd)
  {
  }

  /** A field is recorded if and only if it differs. */
  lemma DiffIsComplete(orig: PipelineData, upd: PipelineData)
    ensures forall f :: f in ChangedFields(Diff(orig, upd)) <==> FieldDiffers(f, orig, upd)
  {
  }

  /** Records follow the comparison order, so no field is recorded twice. */
  lemma DiffIsOrdered(orig: PipelineData, upd: PipelineData)
    ensures forall i, j | 0 <= i < j < |Diff(orig, upd)| :: Rank(Diff(orig, upd)[i].field) < Rank(Diff(orig, upd)[j].field)
  {
  }

  /** No field is recorded twice, and so no name is. */
  lemma DiffNamesAreDistinct(orig: PipelineData, upd: PipelineData, i: nat, j: nat)
    requires i < j < |Diff(orig, upd)|
    ensures Diff(orig, upd)[i].Name() != Diff(orig, upd)[j].Name()
  {
    var changes := Diff(orig, upd);
    if changes[i].Name() == changes[j].Name() {
      FieldNameIsInjective(changes[i].field, changes[j].field);
    }
  }

  /** Submitting a pipeline identical to the original records nothing. */
  lemma DiffOfIdenticalIsEmpty(p: PipelineData)
    ensures Diff(p, p) == []
  {
  }

  /** An update that only re-serialises the source configuration and the
      service connection in another member order records nothing. */
  lemma DiffIgnoresMemberOrder(orig: PipelineData, upd: PipelineData)
    requires DistinctKeys(orig.source.sourceConfig) && DistinctKeys(upd.source.sourceConfig)
    requires DistinctKeys(orig.source.serviceConnection) && DistinctKeys(upd.source.serviceConnection)
    requires multiset(orig.source.sourceConfig.members) == multiset(upd.source.sourceConfig.members)
    requires multiset(orig.source.serviceConnection.members) == multiset(upd.source.serviceConnection.members)
    requires upd == orig.(source := upd.source) && upd.source.serviceName == orig.source.serviceName
    ensures Diff(orig, upd) == []
  {
    SimilarIgnoresOrder(orig.source.sourceConfig, upd.source.sourceConfig);
    SimilarIgnoresOrder(orig.source.serviceConnection, upd.source.serviceConnection);
  }

  /** Changing only the log level yields exactly one "loggerLevel" record. */
  lemma DiffOfLogLevelOnly(orig: PipelineData, level: LogLevel)
    requires orig.loggerLevel != Some(level)
    ensures Diff(orig, orig.(loggerLevel := Some(level)))
         == [FieldChange(LoggerLevelField, LogLevelValue(orig.loggerLevel), LogLevelValue(Some(level)))]
  {
  }

  /** An absent updated connection or log level is never recorded. */
  lemma DiffIgnoresAbsentUpdates(orig: PipelineData, upd: PipelineData)
    ensures upd.openMetadataServerConnection.None? ==> ServerConnectionField !in ChangedFields(Diff(orig, upd))
    ensures upd.loggerLevel.None? ==> LoggerLevelField !in ChangedFields(Diff(orig, upd))
  {
  }

  /** The updater of one PUT or PATCH: compares an original and an updated
      pipeline and accumulates the change records of the mutation. */
  class IngestionPipelineUpdater {
    const original: PipelineData
    const updated: PipelineData
    var changes: seq<FieldChange>

    constructor (original: PipelineData, updated: PipelineData)
      ensures this.original == original && this.updated == updated && changes == []
    {
      this.original, this.updated := original, updated;
      changes := [];
    }

    /** Appends one change record to the mutation's change description. */
    method RecordChange(f: Field, oldValue: FieldValue, newValue: FieldValue)
      modifies this
      ensures changes == old(changes) + [FieldChange(f, oldValue, newValue)]
    {
      changes := changes + [FieldChange(f, oldValue, newValue)];
    }

    /** The pipeline-specific comparisons: exactly the records `Diff`
        prescribes are appended, and nothing else. */
    method EntitySpecificUpdate()
      modifies this
      ensures changes == old(changes) + Diff(original, updated)
    {
      UpdateSource(original.source, updated.source);
      UpdateAirflowConfig(original.airflowConfig, updated.airflowConfig);
      UpdateOpenMetadataServerConnection(original.openMetadataServerConnection, updated.openMetadataServerConnection);
      UpdateLogLevel(original.loggerLevel, updated.loggerLevel);
    }

    method UpdateSource(orig: Source, upd: Source)
      modifies this
      ensures changes == old(changes) + if SourceChanged(orig, upd) then [FieldChange(SourceField, SourceValue(orig), SourceValue(upd))] else []
    {
      if orig.serviceName != upd.serviceName
        || !Similar(orig.sourceConfig, upd.sourceConfig)
        || !Similar(orig.serviceConnection, upd.serviceConnection)
      {
        RecordChange(SourceField, SourceValue(orig), SourceValue(upd));
      }
    }

    method UpdateAirflowConfig(orig: AirflowConfig, upd: AirflowConfig)
      modifies this
      ensures changes == old(changes) + if orig != upd then [FieldChange(AirflowConfigField, AirflowConfigValue(orig), AirflowConfigValue(upd))] else []
    {
      if orig != upd {
        RecordChange(AirflowConfigField, AirflowConfigValue(orig), AirflowConfigValue(upd));
      }
    }

    method UpdateOpenMetadataServerConnection(orig: Option<OpenMetadataServerConnection>, upd: Option<OpenMetadataServerConnection>)
      modifies this
      ensures changes == old(changes) + if NullableChanged(orig, upd) then [FieldChange(ServerConnectionField, ServerConnectionValue(orig), ServerConnectionValue(upd))] else []
    {
      if upd.Some? && orig != upd {
        RecordChange(ServerConnectionField, ServerConnectionValue(orig), ServerConnectionValue(upd));
      }
    }

    method UpdateLogLevel(orig: Option<LogLevel>, upd: Option<LogLevel>)
      modifies this
      ensures changes == old(changes) + if NullableChanged(orig, upd) then [FieldChange(LoggerLevelField, LogLevelValue(orig), LogLevelValue(upd))] else []
    {
      if upd.Some? && orig != upd {
        RecordChange(LoggerLevelField, LogLevelValue(orig), LogLevelValue(upd));
      }
    }
  }

  // ---------------------------------------------------------------------------
  // Repository
  // ---------------------------------------------------------------------------

  datatype RelationshipKind = CONTAINS | OWNS

  /** A directed, typed edge between two entities. */
  datatype EntityRelationship = EntityRelationship(
    fromId: Uuid, toId: Uuid, fromEntity: string, toEntity: string, relation: RelationshipKind)

  datatype RepositoryError =
    | EntityNotFound(id: Uuid, entityType: string)
    | DanglingRelationship(fromId: Uuid)
    | MultipleRelationships(toId: Uuid, relation: RelationshipKind)

  /** The orchestrator client that deploys and deletes pipelines. */
  datatype PipelineServiceClient = PipelineServiceClient(endpoint: string)

  /** A request sent to the pipeline service client. */
  datatype ClientCall =
    | DeployPipeline(client: PipelineServiceClient, pipeline: PipelineData)
    | DeletePipeline(client: PipelineServiceClient, name: string)

  /** The edges of kind `relation` that end at the given entity. */
  function Incoming(edges: set<EntityRelationship>, toId: Uuid, toEntity: string, relation: RelationshipKind): set<EntityRelationship>
  {
    set e | e in edges && e.toId == toId && e.toEntity == toEntity && e.relation == relation
  }

  /** What the container and owner lookups find: nothing when no edge ends at
      the entity, the entity at the other end of the only such edge, and an
      error when there are several edges or the other end no longer exists. */
  ghost function Related(edges: set<EntityRelationship>, entities: map<Uuid, EntityReference>,
                         toId: Uuid, toEntity: string, relation: RelationshipKind)
    : (r: Result<Option<EntityReference>, RepositoryError>)
    ensures r == Ok(None) <==> Incoming(edges, toId, toEntity, relation) == {}
    ensures r == Err(MultipleRelationships(toId, relation)) <==> |Incoming(edges, toId, toEntity, relation)| >= 2
    ensures forall e | e in Incoming(edges, toId, toEntity, relation) && |Incoming(edges, toId, toEntity, relation)| == 1 ::
      r == if e.fromId in entities then Ok(Some(entities[e.fromId])) else Err(DanglingRelationship(e.fromId))
  {
    var found := Incoming(edges, toId, toEntity, relation);
    if found == {} then Ok(None)
    else
      var e :| e in found;
      SingletonIff(found, e);
      if found != {e} then Err(MultipleRelationships(toId, relation))
      else if e.fromId !in entities then Err(DanglingRelationship(e.fromId))
      else Ok(Some(entities[e.fromId]))
  }

  /** A set holding `e` is exactly `{e}` when it has one element, and has at
      least two elements otherwise. */
  lemma SingletonIff<T>(s: set<T>, e: T)
    requires e in s
    ensures s == {e} <==> |s| == 1
    ensures s != {e} ==> |s| >= 2
    ensures |s| == 1 ==> forall x | x in s :: x == e
  {
    if s != {e} {
      var x :| x in s && x != e;
      assert {e, x} <= s;
      assert |s| == |s - {e, x}| + |{e, x}|;
    }
  }

  /** The CONTAINS edge from a service to a pipeline. */
  function ContainsEdge(service: EntityReference, pipelineId: Uuid): EntityRelationship
  {
    EntityRelationship(service.id, pipelineId, service.entityType, INGESTION_PIPELINE, CONTAINS)
  }

  /** The OWNS edge from an owner to a pipeline, if the pipeline has an owner. */
  function OwnerEdges(owner: Option<EntityReference>, pipelineId: Uuid): set<EntityRelationship>
  {
    if owner.Some? then {EntityRelationship(owner.value.id, pipelineId, owner.value.entityType, INGESTION_PIPELINE, OWNS)} else {}
  }

  /** Writing the service and owner edges of a pipeline, whether for the first
      time or again on an update, lets the read side find the directory's
      entries for that service and that owner. */
  lemma StoredRelationshipsReadBack(edges: set<EntityRelationship>, entities: map<Uuid, EntityReference>,
                                    pipelineId: Uuid, service: EntityReference, owner: Option<EntityReference>)
    requires Incoming(edges, pipelineId, INGESTION_PIPELINE, CONTAINS) <= {ContainsEdge(service, pipelineId)}
    requires Incoming(edges, pipelineId, INGESTION_PIPELINE, OWNS) <= OwnerEdges(owner, pipelineId)
    requires service.id in entities
    requires owner.Some? ==> owner.value.id in entities
    ensures var after := edges + {ContainsEdge(service, pipelineId)} + OwnerEdges(owner, pipelineId);
      && Related(after, entities, pipelineId, INGESTION_PIPELINE, CONTAINS) == Ok(Some(entities[service.id]))
      && Related(after, entities, pipelineId, INGESTION_PIPELINE, OWNS)
         == if owner.Some? then Ok(Some(entities[owner.value.id])) else Ok(None)
  {
    var after := edges + {ContainsEdge(service, pipelineId)} + OwnerEdges(owner, pipelineId);
    assert Incoming(after, pipelineId, INGESTION_PIPELINE, CONTAINS) == {ContainsEdge(service, pipelineId)} by {
      forall e | e in Incoming(after, pipelineId, INGESTION_PIPELINE, CONTAINS)
        ensures e == ContainsEdge(service, pipelineId)
      {
        if e in edges {
          assert e in Incoming(edges, pipelineId, INGESTION_PIPELINE, CONTAINS);
        }
      }
    }
    assert Incoming(after, pipelineId, INGESTION_PIPELINE, OWNS) == OwnerEdges(owner, pipelineId) by {
      forall e | e in Incoming(after, pipelineId, INGESTION_PIPELINE, OWNS)
        ensures e in OwnerEdges(owner, pipelineId)
      {
        if e in edges {
          assert e in Incoming(edges, pipelineId, INGESTION_PIPELINE, OWNS);
        }
      }
    }
  }

  /** The canonical reference a loose reference resolves to: absent stays
      absent, a known id of the named type resolves to the directory's entry,
      anything else is not found. */
  function ResolveReference(entities: map<Uuid, EntityReference>, ref: Option<EntityReference>): (r: Result<Option<EntityReference>, RepositoryError>)
    ensures ref.None? ==> r == Ok(None)
    ensures ref.Some? ==> (r.Ok? <==> ref.value.id in entities && entities[ref.value.id].entityType == ref.value.entityType)
    ensures ref.Some? && r.Ok? ==> r.value == Some(entities[ref.value.id])
    ensures ref.Some? && r.Err? ==> r.error == EntityNotFound(ref.value.id, ref.value.entityType)
  {
    if ref.None? then Ok(None)
    else if ref.value.id in entities && entities[ref.value.id].entityType == ref.value.entityType then Ok(Some(entities[ref.value.id]))
    else Err(EntityNotFound(ref.value.id, ref.value.entityType))
  }

  /** A persisted body holds no relationship-derived field. */
  ghost predicate Stripped(d: PipelineData)
  {
    d.owner.None? && d.service.None? && d.href.None?
  }

  /** The repository of ingestion pipelines: persisted bodies by id, the
      relationship edges, the directory of entities references resolve
      against, and the pipeline service client with the calls made to it. */
  class IngestionPipelineRepository {
    const entities: map<Uuid, EntityReference>
    var bodies: map<Uuid, PipelineData>
    var relationships: set<EntityRelationship>
    var client: Option<PipelineServiceClient>
    ghost var clientCalls: seq<ClientCall>

    /** No persisted body embeds its owner, service or href. */
    ghost predicate Valid()
      reads this
    {
      forall id | id in bodies :: Stripped(bodies[id])
    }

    constructor (entities: map<Uuid, EntityReference>)
      ensures Valid()
      ensures this.entities == entities && bodies == map[] && relationships == {}
      ensures client == None && clientCalls == []
    {
      this.entities := entities;
      bodies, relationships := map[], {};
      client := None;
      clientCalls := [];
    }

    /** Persists a serialised body under its id; a body is only ever stored
        without its relationship-derived fields. */
    method Store(id: Uuid, body: PipelineData, update: bool)
      requires Valid() && Stripped(body)
      modifies this`bodies
      ensures Valid()
      ensures bodies == old(bodies)[id := body]
    {
      bodies := bodies[id := body];
    }

    /** Inserts an edge; inserting an edge that exists changes nothing. */
    method AddRelationship(fromId: Uuid, toId: Uuid, fromEntity: string, toEntity: string, relation: RelationshipKind)
      modifies this`relationships
      ensures relationships == old(relationships) + {EntityRelationship(fromId, toId, fromEntity, toEntity, relation)}
    {
      relationships := relationships + {EntityRelationship(fromId, toId, fromEntity, toEntity, relation)};
    }

    /** The entity at the other end of the only `relation` edge ending at the
        given entity, as `Related` specifies. */
    method FindRelated(toId: Uuid, toEntity: string, relation: RelationshipKind)
      returns (r: Result<Option<EntityReference>, RepositoryError>)
      ensures r == Related(relationships, entities, toId, toEntity, relation)
      ensures r.Ok? && r.value.Some? ==> exists e :: e in relationships && e.toId == toId && e.relation == relation && e.fromId in entities && entities[e.fromId] == r.value.value
    {
      var found := Incoming(relationships, toId, toEntity, relation);
      if found == {} {
        return Ok(None);
      }
      var e :| e in found;
      if found != {e} {
        r := Err(MultipleRelationships(toId, relation));
      } else if e.fromId !in entities {
        r := Err(DanglingRelationship(e.fromId));
      } else {
        r := Ok(Some(entities[e.fromId]));
      }
    }

    /** Rebuilds the relationship fields of a pipeline read from the store:
        the service always comes from the CONTAINS edge; the owner comes from
        the OWNS edge when "owner" is requested and is cleared otherwise. */
    method SetFields(p: Pipeline, fields: set<string>) returns (r: Outcome<RepositoryError>)
      modifies p
      ensures var container := Related(relationships, entities, old(p.id), INGESTION_PIPELINE, CONTAINS);
              var owner := Related(relationships, entities, old(p.id), INGESTION_PIPELINE, OWNS);
        && (container.Err? ==> r == Fail(container.error) && p.Data() == old(p.Data()))
        && (container.Ok? && FIELD_OWNER !in fields ==>
              r == Pass && p.Data() == old(p.Data()).(service := container.value, owner := None))
        && (container.Ok? && FIELD_OWNER in fields && owner.Ok? ==>
              r == Pass && p.Data() == old(p.Data()).(service := container.value, owner := owner.value))
        && (container.Ok? && FIELD_OWNER in fields && owner.Err? ==>
              r == Fail(owner.error) && p.Data() == old(p.Data()).(service := container.value))
    {
      var service := FindRelated(p.id, INGESTION_PIPELINE, CONTAINS);
      if service.Err? {
        return Fail(service.error);
      }
      p.service := service.value;
      if FIELD_OWNER in fields {
        var owner := FindRelated(p.id, INGESTION_PIPELINE, OWNS);
        if owner.Err? {
          return Fail(owner.error);
        }
        p.owner := owner.value;
      } else {
        p.owner := None;
      }
      r := Pass;
    }

    /** Resolves the service, derives the FQN from the resolved service, then
        resolves the owner; a reference that does not resolve stops it there. */
    method Prepare(p: Pipeline) returns (r: Outcome<RepositoryError>)
      modifies p
      ensures var service := ResolveReference(entities, old(p.service));
              var owner := ResolveReference(entities, old(p.owner));
        && (service.Err? ==> r == Fail(service.error) && p.Data() == old(p.Data()))
        && (service.Ok? ==> p.service == service.value && p.fullyQualifiedName == GetFqn(p))
        && (service.Ok? && owner.Err? ==>
              r == Fail(owner.error)
              && p.Data() == old(p.Data()).(service := service.value, fullyQualifiedName := p.fullyQualifiedName))
        && (service.Ok? && owner.Ok? ==>
              r == Pass
              && p.Data() == old(p.Data()).(service := service.value, fullyQualifiedName := p.fullyQualifiedName, owner := owner.value))
    {
      var service := ResolveReference(entities, p.service);
      if service.Err? {
        return Fail(service.error);
      }
      p.service := service.value;
      p.fullyQualifiedName := GetFqn(p);
      var owner := ResolveReference(entities, p.owner);
      if owner.Err? {
        return Fail(owner.error);
      }
      p.owner := owner.value;
      r := Pass;
    }

    /** Persists the pipeline with owner, service and href stripped, then puts
        owner and service back on the object; href stays cleared. */
    method StoreEntity(p: Pipeline, update: bool)
      requires Valid()
      modifies this`bodies, p
      ensures Valid()
      ensures bodies == old(bodies)[old(p.id) := old(p.Data()).(owner := None, service := None, href := None)]
      ensures p.Data() == old(p.Data()).(href := None)
    {
      var owner := p.owner;
      var service := p.service;
      p.owner, p.service, p.href := None, None, None;
      Store(p.id, p.Data(), update);
      p.owner, p.service := owner, service;
    }

    /** Adds the CONTAINS edge from the service to the pipeline and the OWNS
        edge from its owner, if any. */
    method StoreRelationships(p: Pipeline)
      requires p.service.Some?
      modifies this`relationships
      ensures relationships == old(relationships) + {ContainsEdge(p.service.value, p.id)} + OwnerEdges(p.owner, p.id)
    {
      var service := p.service.value;
      AddRelationship(service.id, p.id, service.entityType, INGESTION_PIPELINE, CONTAINS);
      StoreOwner(p.id, p.owner);
    }

    /** Records the owner of an entity as an OWNS edge. */
    method StoreOwner(pipelineId: Uuid, owner: Option<EntityReference>)
      modifies this`relationships
      ensures relationships == old(relationships) + OwnerEdges(owner, pipelineId)
    {
      if owner.Some? {
        AddRelationship(owner.value.id, pipelineId, owner.value.entityType, INGESTION_PIPELINE, OWNS);
      }
    }

    method SetPipelineServiceClient(c: PipelineServiceClient)
      modifies this`client
      ensures client == Some(c)
    {
      client := Some(c);
    }

    /** Asks the client to deploy the pipeline exactly when its airflow
        configuration sets forceDeploy to true; absent or false deploys nothing. */
    method Deploy(p: Pipeline)
      requires ShouldDeploy(p.Data()) ==> client.Some?
      modifies this`clientCalls
      ensures clientCalls == old(clientCalls) + if ShouldDeploy(p.Data()) then [DeployPipeline(client.value, p.Data())] else []
    {
      if p.airflowConfig.forceDeploy == Some(true) {
        clientCalls := clientCalls + [DeployPipeline(client.value, p.Data())];
      }
    }

    method PostCreate(p: Pipeline)
      requires ShouldDeploy(p.Data()) ==> client.Some?
      modifies this`clientCalls
      ensures clientCalls == old(clientCalls) + if ShouldDeploy(p.Data()) then [DeployPipeline(client.value, p.Data())] else []
    {
      Deploy(p);
    }

    method PostUpdate(p: Pipeline)
      requires ShouldDeploy(p.Data()) ==> client.Some?
      modifies this`clientCalls
      ensures clientCalls == old(clientCalls) + if ShouldDeploy(p.Data()) then [DeployPipeline(client.value, p.Data())] else []
    {
      Deploy(p);
    }

    /** Deleting a pipeline always asks the client to delete it by name. */
    method PostDelete(p: Pipeline)
      requires client.Some?
      modifies this`clientCalls
      ensures clientCalls == old(clientCalls) + [DeletePipeline(client.value, p.name)]
    {
      clientCalls := clientCalls + [DeletePipeline(client.value, p.name)];
    }
  }

  /** The deploy policy: forceDeploy is present and true. */
  predicate ShouldDeploy(d: PipelineData)
  {
    d.airflowConfig.forceDeploy == Some(true)
  }
}
