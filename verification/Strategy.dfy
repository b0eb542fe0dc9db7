/** Which data layer a resource belongs to and what a sync does with it
    (v5_resources.py and v5_sync_strategy.py). */
module Strategy {
  import opened Text

  datatype Layer =
    | RealtimeLayer | MasterDataLayer | KnowledgeColdLayer | KnowledgeHotLayer
    | ExternalWebLayer | LongTermMemoryLayer | ManualReviewLayer

  datatype Action =
    | RealtimeEvent | MasterDataIndex | DocumentIndexOnly | KnowledgeVectorize
    | ExternalRealtimeReference | MemoryExtractLater | ManualReviewRequired | Skip

  /** The normalized resource types the strategy distinguishes; any other text passes through. */
  datatype Kind =
    | Chat | Approval | Calendar | Meeting | Task | Mailbox | Directory
    | Bitable | Doc | Wiki | Web | Memory | Other(name: string)

  function KindOf(name: string): Kind {
    match name
    case "chat" => Chat
    case "approval" => Approval
    case "calendar" => Calendar
    case "meeting" => Meeting
    case "task" => Task
    case "mailbox" => Mailbox
    case "directory" => Directory
    case "bitable" => Bitable
    case "doc" => Doc
    case "wiki" => Wiki
    case "web" => Web
    case "memory" => Memory
    case _ => Other(name)
  }

  function KindName(kind: Kind): string {
    match kind
    case Chat => "chat"
    case Approval => "approval"
    case Calendar => "calendar"
    case Meeting => "meeting"
    case Task => "task"
    case Mailbox => "mailbox"
    case Directory => "directory"
    case Bitable => "bitable"
    case Doc => "doc"
    case Wiki => "wiki"
    case Web => "web"
    case Memory => "memory"
    case Other(name) => name
  }

  /** LEGACY_TO_V5_RESOURCE_TYPE. */
  function LegacyKind(name: string): Kind {
    match name
    case "approval_code" => Approval
    case "mail_folder" => Mailbox
    case "drive_file" => Doc
    case "wiki_space" => Wiki
    case "bitable_app" => Bitable
    case "bitable_table" => Bitable
    case "external_web" => Web
    case "web_page" => Web
    case "website" => Web
    case "url" => Web
    case "memory_fact" => Memory
    case "derived_memory" => Memory
    case _ => KindOf(name)
  }

  /** CAPABILITY_TO_V5_RESOURCE_TYPE. */
  function CapabilityKind(id: string): Kind {
    match id
    case "feishu:contacts" => Directory
    case "feishu:calendar" => Calendar
    case "feishu:meetings" => Meeting
    case "feishu:tasks" => Task
    case _ => Other("capability")
  }

  /** normalize_v5_resource_type. */
  function NormalizeType(resourceType: string, resourceId: string): Kind {
    var normalized := Lower(Strip(resourceType));
    if normalized == "capability" then CapabilityKind(Lower(Strip(resourceId))) else LegacyKind(normalized)
  }

  /** data_layer_for_resource. */
  function LayerOf(kind: Kind): Layer {
    match kind
    case Chat => RealtimeLayer
    case Approval => RealtimeLayer
    case Calendar => RealtimeLayer
    case Meeting => RealtimeLayer
    case Task => RealtimeLayer
    case Mailbox => RealtimeLayer
    case Directory => RealtimeLayer
    case Bitable => MasterDataLayer
    case Web => ExternalWebLayer
    case Memory => LongTermMemoryLayer
    case Doc => KnowledgeColdLayer
    case Wiki => KnowledgeColdLayer
    case Other(_) => ManualReviewLayer
  }

  /** large_document_mode, as far as the strategy tells its values apart. */
  datatype DocumentMode = DocumentsDisabled | VectorizeDocuments | OtherDocumentMode

  function DocumentModeOf(text: string): DocumentMode {
    match text
    case "disabled" => DocumentsDisabled
    case "knowledge_vectorize" => VectorizeDocuments
    case _ => OtherDocumentMode
  }

  /** bitable_mode, likewise. */
  datatype BitableMode = BitablesDisabled | IndexBitables | OtherBitableMode

  function BitableModeOf(text: string): BitableMode {
    match text
    case "disabled" => BitablesDisabled
    case "master_data_index" => IndexBitables
    case _ => OtherBitableMode
  }

  datatype Plan = Plan(layer: Layer, action: Action, extractItems: bool)

  /** sync_action_for_resource. */
  function PlanFor(kind: Kind, documents: DocumentMode, bitables: BitableMode): Plan {
    var layer := LayerOf(kind);
    if layer == KnowledgeColdLayer && documents == DocumentsDisabled then Plan(layer, Skip, false)
    else if layer == MasterDataLayer && bitables == BitablesDisabled then Plan(layer, Skip, false)
    else if layer == KnowledgeColdLayer && kind == Wiki && documents == VectorizeDocuments then
      Plan(layer, DocumentIndexOnly, false)
    else if layer == KnowledgeColdLayer && documents == VectorizeDocuments then
      Plan(KnowledgeHotLayer, KnowledgeVectorize, true)
    else if layer == ExternalWebLayer then Plan(layer, ExternalRealtimeReference, false)
    else if layer == KnowledgeColdLayer then Plan(layer, DocumentIndexOnly, false)
    else if layer == MasterDataLayer then Plan(layer, MasterDataIndex, bitables != IndexBitables)
    else if layer == RealtimeLayer then Plan(layer, RealtimeEvent, true)
    else if layer == LongTermMemoryLayer then Plan(layer, MemoryExtractLater, false)
    else Plan(layer, ManualReviewRequired, false)
  }
}
