/**
 * `InMemoryJavaFileManager`: a file manager that keeps everything the compiler writes in
 * a cache from URI to in-memory file object. Requests for output locations are served
 * from the cache; other input requests are forwarded unchanged to the delegate.
 */
module InMemoryFileManager {
  import opened Wrappers
  import opened JavaTools
  import opened InMemoryFileObject

  /** A request the manager passes on, unchanged, to the delegate file manager. */
  datatype Request =
    | FileRequest(location: Location, packageName: string, relativeName: string)
    | JavaFileRequest(location: Location, className: string, kind: Kind)

  /** The answer to an input request: a cached object, null, or the delegate's answer to the request. */
  datatype Lookup =
    | Found(file: InMemoryJavaFileObject)
    | NotFound
    | Forwarded(request: Request)

  /** The URI prefix under which generated sources are written: "/" + `SOURCE_OUTPUT.name()`. */
  function GeneratedSourcesRoot(): string {
    "/" + SourceOutput.name
  }

  /** The filter of `getGeneratedSourcesRenamed`: under the generated-sources root and of kind SOURCE. */
  predicate IsGeneratedSource(u: Uri, kind: Kind) {
    GeneratedSourcesRoot() <= u.path && kind == Source
  }

  /** A map that never sends two keys to the same value has as many values as keys. */
  lemma {:induction false} InjectiveMapValuesCount<K, V>(m: map<K, V>)
    requires forall a, b :: a in m && b in m && m[a] == m[b] ==> a == b
    ensures |m.Values| == |m.Keys|
    decreases |m.Keys|
  {
    if m != map[] {
      var k :| k in m;
      var rest := m - {k};
      assert m.Keys == rest.Keys + {k};
      assert m.Values == rest.Values + {m[k]};
      assert m[k] !in rest.Values;
      InjectiveMapValuesCount(rest);
    }
  }

  class InMemoryJavaFileManager {
    /** `inMemoryFileObjects`: the cache, keyed by URI; entries are added and never removed. */
    var cache: map<Uri, InMemoryJavaFileObject>

    /** `uriForFileObject(location, packageName, relativeName)`: deterministic, defined elsewhere. */
    const fileUri: (Location, string, string) -> Uri
    /** `MoreTrees.uriForJavaFileObject(location, className, kind)`: deterministic, defined elsewhere. */
    const javaFileUri: (Location, string, Kind) -> Uri
    /** `JavaFileObjects.deduceKind(uri)`: deterministic, defined elsewhere. */
    const deduceKind: Uri -> Kind
    /** `Charset.defaultCharset()`: the one charset every file object of the run uses. */
    const charset: Charset

    /**
     * Each cached object is the one the cache loader made for its key, uses the run's
     * charset, and keeps its own invariant (no content implies stamp 0).
     */
    ghost predicate Valid()
      reads this, cache.Values
    {
      forall u :: u in cache ==>
        cache[u].uri == u && cache[u].kind == deduceKind(u) && cache[u].charset == charset && cache[u].Valid()
    }

    constructor(fileUri: (Location, string, string) -> Uri,
                javaFileUri: (Location, string, Kind) -> Uri,
                deduceKind: Uri -> Kind, charset: Charset)
      ensures Valid() && cache == map[]
      ensures this.fileUri == fileUri && this.javaFileUri == javaFileUri
      ensures this.deduceKind == deduceKind && this.charset == charset
    {
      this.fileUri := fileUri;
      this.javaFileUri := javaFileUri;
      this.deduceKind := deduceKind;
      this.charset := charset;
      cache := map[];
    }

    /**
     * Two file objects are the same file when their URIs are equal. The function reads no
     * field of either object, so content and stamps cannot play a part.
     */
    function IsSameFile(a: InMemoryJavaFileObject, b: InMemoryJavaFileObject): (same: bool)
      ensures same <==> a.uri == b.uri
      ensures a == b ==> same
    {
      a.uri == b.uri
    }

    /**
     * `getIfPresent`: the cached object for `u`, or null. It only reads the cache.
     */
    function IfPresent(u: Uri): (r: Lookup)
      reads this, cache.Values
      requires Valid()
      ensures r.Found? || r.NotFound?
      ensures r.Found? <==> u in cache
      ensures r.Found? ==> r.file == cache[u] && r.file.uri == u && r.file.Valid()
    {
      if u in cache then Found(cache[u]) else NotFound
    }

    /**
     * `getFileForInput`: for an output location, the cached object for the derived URI or
     * null, and never a new entry; for any other location, the delegate's answer.
     */
    function FileForInput(location: Location, packageName: string, relativeName: string): (r: Lookup)
      reads this, cache.Values
      requires Valid()
      ensures !location.isOutputLocation <==> r == Forwarded(FileRequest(location, packageName, relativeName))
      ensures r.Found? ==> r.file.uri == fileUri(location, packageName, relativeName) && r.file in OutputFiles()
      ensures r.Found? ==> r.file.Valid()
      ensures r.NotFound? <==> location.isOutputLocation && fileUri(location, packageName, relativeName) !in cache
    {
      if location.isOutputLocation then IfPresent(fileUri(location, packageName, relativeName))
      else Forwarded(FileRequest(location, packageName, relativeName))
    }

    /**
     * `getJavaFileForInput`: for an output location, the cached object for the derived URI or
     * null, and never a new entry; for any other location, the delegate's answer.
     */
    function JavaFileForInput(location: Location, className: string, kind: Kind): (r: Lookup)
      reads this, cache.Values
      requires Valid()
      ensures !location.isOutputLocation <==> r == Forwarded(JavaFileRequest(location, className, kind))
      ensures r.Found? ==> r.file.uri == javaFileUri(location, className, kind) && r.file in OutputFiles()
      ensures r.Found? ==> r.file.Valid()
      ensures r.NotFound? <==> location.isOutputLocation && javaFileUri(location, className, kind) !in cache
    {
      if location.isOutputLocation then IfPresent(javaFileUri(location, className, kind))
      else Forwarded(JavaFileRequest(location, className, kind))
    }

    /**
     * `getUnchecked`: the cached object for `u`, created empty by the cache loader on a miss.
     * Only the entry for `u` can be added; existing entries are left as they are.
     */
    method GetUnchecked(u: Uri) returns (f: InMemoryJavaFileObject)
      requires Valid()
      modifies this
      ensures Valid()
      ensures f.uri == u && f.Valid()
      ensures cache == old(cache)[u := f]
      ensures cache.Keys == old(cache).Keys + {u}
      ensures u in old(cache) ==> f == old(cache)[u]
      ensures u !in old(cache) ==> fresh(f) && f.State() == Empty && f.kind == deduceKind(u)
    {
      if u in cache {
        f := cache[u];
      } else {
        f := new InMemoryJavaFileObject(u, deduceKind, charset);
        cache := cache[u := f];
      }
    }

    /**
     * `getFileForOutput`: fetch-or-create for the derived URI, whatever the location. A later
     * input request with the same arguments at an output location finds this very object.
     */
    method GetFileForOutput(location: Location, packageName: string, relativeName: string)
      returns (f: InMemoryJavaFileObject)
      requires Valid()
      modifies this
      ensures Valid()
      ensures f.uri == fileUri(location, packageName, relativeName) && f.Valid()
      ensures cache == old(cache)[f.uri := f]
      ensures cache.Keys == old(cache).Keys + {f.uri}
      ensures f.uri in old(cache) ==> f == old(cache)[f.uri]
      ensures f.uri !in old(cache) ==> fresh(f) && f.State() == Empty && f.kind == deduceKind(f.uri)
      ensures location.isOutputLocation ==> FileForInput(location, packageName, relativeName) == Found(f)
    {
      var u := fileUri(location, packageName, relativeName);
      f := GetUnchecked(u);
    }

    /**
     * `getJavaFileForOutput`: fetch-or-create for the derived URI, whatever the location. A later
     * input request with the same arguments at an output location finds this very object.
     */
    method GetJavaFileForOutput(location: Location, className: string, kind: Kind)
      returns (f: InMemoryJavaFileObject)
      requires Valid()
      modifies this
      ensures Valid()
      ensures f.uri == javaFileUri(location, className, kind) && f.Valid()
      ensures cache == old(cache)[f.uri := f]
      ensures cache.Keys == old(cache).Keys + {f.uri}
      ensures f.uri in old(cache) ==> f == old(cache)[f.uri]
      ensures f.uri !in old(cache) ==> fresh(f) && f.State() == Empty && f.kind == deduceKind(f.uri)
      ensures location.isOutputLocation ==> JavaFileForInput(location, className, kind) == Found(f)
    {
      var u := javaFileUri(location, className, kind);
      f := GetUnchecked(u);
    }

    /**
     * `getOutputFiles`: every cached object, written or not, each once: there are exactly
     * as many as there are URIs in the cache.
     */
    function OutputFiles(): (files: set<InMemoryJavaFileObject>)
      reads this, cache.Values
      requires Valid()
      ensures forall u :: u in cache ==> cache[u] in files
      ensures forall f :: f in files ==> f.uri in cache && cache[f.uri] == f
      ensures |files| == |cache|
    {
      InjectiveMapValuesCount(cache);
      cache.Values
    }

    /**
     * `getGeneratedSourcesRenamed`: walks the cache entries and keeps, each once, exactly the
     * objects whose URI path starts with the generated-sources root and whose kind is SOURCE.
     */
    method GetGeneratedSourcesRenamed() returns (sources: seq<InMemoryJavaFileObject>)
      requires Valid()
      ensures forall i :: 0 <= i < |sources| ==> sources[i] in OutputFiles()
      ensures forall i :: 0 <= i < |sources| ==> IsGeneratedSource(sources[i].uri, sources[i].kind)
      ensures forall u :: u in cache && IsGeneratedSource(u, cache[u].kind) ==> cache[u] in sources
      ensures forall i, j :: 0 <= i < j < |sources| ==> sources[i] != sources[j]
    {
      sources := [];
      var pending := cache.Keys;
      while pending != {}
        invariant pending <= cache.Keys
        invariant forall i :: 0 <= i < |sources| ==>
          sources[i].uri in cache && cache[sources[i].uri] == sources[i] && sources[i].uri !in pending
        invariant forall i :: 0 <= i < |sources| ==> IsGeneratedSource(sources[i].uri, sources[i].kind)
        invariant forall u :: u in cache && u !in pending && IsGeneratedSource(u, cache[u].kind) ==> cache[u] in sources
        invariant forall i, j :: 0 <= i < j < |sources| ==> sources[i] != sources[j]
        decreases pending
      {
        var u :| u in pending;
        var f := cache[u];
        if IsGeneratedSource(u, f.kind) {
          sources := sources + [f];
        }
        pending := pending - {u};
      }
    }
  }

  /** Within one manager, two cached objects are the same file exactly when they are the same object. */
  lemma CachedSameFileIsIdentity(m: InMemoryJavaFileManager, a: InMemoryJavaFileObject, b: InMemoryJavaFileObject)
    requires m.Valid() && a in m.OutputFiles() && b in m.OutputFiles()
    ensures m.IsSameFile(a, b) <==> a == b
  {
  }
}
