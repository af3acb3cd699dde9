/** The records the application passes around: profiles, media items, the
    installation's configuration and the upload progress indicator. */
module Types {
  import opened Base

  /** `'admin' | 'user'`. */
  datatype Role = Admin | Member

  /** A profile of the family roster. */
  datatype User = User(id: string, name: string, avatar: string, color: string, role: Role, pin: string)

  /** `'image' | 'video'`. */
  datatype MediaKind = Image | Video

  /** One entry of the shared catalog; `url` holds the blob store's file id. */
  datatype MediaItem = MediaItem(
    id: string,
    url: string,
    kind: MediaKind,
    fileName: string,
    userId: string,
    userName: string,
    timestamp: int,
    size: nat,
    aiDescription: Option<string>,
    tags: Option<seq<string>>)

  /** Blob store settings; the provider tag is always `'google'` and is not represented. */
  datatype StorageConfig = StorageConfig(email: Option<string>, apiKey: Option<string>, folderId: Option<string>)

  /** `'local' | 'supabase'`. */
  datatype DbProvider = Local | Supabase

  datatype DatabaseConfig = DatabaseConfig(provider: DbProvider, supabaseUrl: Option<string>, supabaseAnonKey: Option<string>)

  datatype CloudConfig = CloudConfig(brandName: string, storage: StorageConfig, database: DatabaseConfig, isActive: bool)

  /** `'pending' | 'uploading' | 'analyzing' | 'completed' | 'error'`. */
  datatype UploadStatus = Pending | Uploading | Analyzing | Completed | Errored

  datatype UploadProgress = UploadProgress(fileName: string, progress: int, status: UploadStatus)

  /** A file picked by the user: `File.name`, `File.type` and `File.size`. */
  datatype LocalFile = LocalFile(name: string, mimeType: string, size: nat)

  /** Key functions, used wherever a collection is searched or filtered by id. */
  function UserId(u: User): string { u.id }

  function ItemId(m: MediaItem): string { m.id }
}
