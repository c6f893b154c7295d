/**
 * Client sessions that use only the contracts of the manager and its file objects, the
 * way a compiler run does: ask for an output file, write it, read it back, list outputs.
 */
module Scenarios {
  import opened Wrappers
  import opened JavaTools
  import opened InMemoryFileObject
  import opened InMemoryFileManager

  /**
   * A class file for `com.foo.Bar` is written with CA FE BA BE and closed at `now`: the
   * session then has one output file, holding exactly those bytes, stamped `now`.
   */
  method WriteClassFile(fileUri: (Location, string, string) -> Uri,
                        javaFileUri: (Location, string, Kind) -> Uri,
                        deduceKind: Uri -> Kind, charset: Charset, now: Long)
    returns (outputs: nat, content: Result<seq<bv8>, IoError>, stamp: Long)
    ensures outputs == 1
    ensures content == Ok([0xCA, 0xFE, 0xBA, 0xBE])
    ensures stamp == now
  {
    var manager := new InMemoryJavaFileManager(fileUri, javaFileUri, deduceKind, charset);
    var file := manager.GetJavaFileForOutput(ClassOutput, "com.foo.Bar", Class);
    var out := file.OpenOutputStream();
    out.Write([0xCA, 0xFE, 0xBA, 0xBE]);
    assert out.buffer == [0xCA, 0xFE, 0xBA, 0xBE];
    out.Close(now);
    assert file.data == Some([0xCA, 0xFE, 0xBA, 0xBE]);
    assert manager.cache == map[file.uri := file];
    var files := manager.OutputFiles();
    outputs := |files|;
    var listed :| listed in files;
    assert listed == file;
    content := listed.OpenInputStream();
    stamp := listed.GetLastModified();
  }

  /**
   * Probing an output location for a file nobody wrote finds nothing and leaves no entry
   * behind, whereas asking for it as output creates exactly one, still empty.
   */
  method ProbeThenCreate(fileUri: (Location, string, string) -> Uri,
                         javaFileUri: (Location, string, Kind) -> Uri,
                         deduceKind: Uri -> Kind, charset: Charset)
    returns (probe: Lookup, outputsAfterProbe: nat, outputsAfterCreate: nat,
             content: Result<seq<bv8>, IoError>, stamp: Long)
    ensures probe == NotFound && outputsAfterProbe == 0
    ensures outputsAfterCreate == 1 && content == Err(FileNotFound) && stamp == 0
  {
    var manager := new InMemoryJavaFileManager(fileUri, javaFileUri, deduceKind, charset);
    probe := manager.JavaFileForInput(SourceOutput, "com.foo.Gen", Source);
    outputsAfterProbe := |manager.OutputFiles()|;
    var file := manager.GetJavaFileForOutput(SourceOutput, "com.foo.Gen", Source);
    outputsAfterCreate := |manager.OutputFiles()|;
    var found := manager.JavaFileForInput(SourceOutput, "com.foo.Gen", Source);
    content := found.file.OpenInputStream();
    stamp := found.file.GetLastModified();
  }

  /**
   * Source text written through a writer and closed is read back unchanged by
   * `getCharContent`, whenever the run's charset decodes its own encoding of that text.
   */
  method WriteSourceText(fileUri: (Location, string, string) -> Uri,
                         javaFileUri: (Location, string, Kind) -> Uri,
                         deduceKind: Uri -> Kind, charset: Charset,
                         text: string, now: Long)
    returns (content: Result<string, IoError>)
    requires charset.decode(charset.encode(text)) == text
    ensures content == Ok(text)
  {
    var manager := new InMemoryJavaFileManager(fileUri, javaFileUri, deduceKind, charset);
    var file := manager.GetJavaFileForOutput(SourceOutput, "com.foo.Gen", Source);
    var writer := file.OpenWriter();
    writer.Write(text);
    assert writer.text == text;
    writer.Close(now);
    content := file.GetCharContent(false);
  }

  /**
   * Two output requests with the same arguments give the same object, which is the same
   * file as itself by `isSameFile`; the cache holds one entry.
   */
  method RepeatedOutputRequest(fileUri: (Location, string, string) -> Uri,
                               javaFileUri: (Location, string, Kind) -> Uri,
                               deduceKind: Uri -> Kind, charset: Charset,
                               location: Location, packageName: string, relativeName: string)
    returns (sameObject: bool, sameFile: bool, outputs: nat)
    ensures sameObject && sameFile && outputs == 1
  {
    var manager := new InMemoryJavaFileManager(fileUri, javaFileUri, deduceKind, charset);
    var first := manager.GetFileForOutput(location, packageName, relativeName);
    var second := manager.GetFileForOutput(location, packageName, relativeName);
    sameObject := first == second;
    sameFile := manager.IsSameFile(first, second);
    outputs := |manager.OutputFiles()|;
  }

  /**
   * Write, delete, rewrite: after the delete the file is unreadable with stamp 0; after the
   * rewrite it holds the new bytes with the new stamp.
   */
  method DeleteThenRewrite(fileUri: (Location, string, string) -> Uri,
                           javaFileUri: (Location, string, Kind) -> Uri,
                           deduceKind: Uri -> Kind, charset: Charset,
                           first: seq<bv8>, second: seq<bv8>, t1: Long, t2: Long)
    returns (deleted: bool, afterDelete: Result<seq<bv8>, IoError>, stampAfterDelete: Long,
             afterRewrite: Result<seq<bv8>, IoError>, stampAfterRewrite: Long)
    ensures deleted && afterDelete == Err(FileNotFound) && stampAfterDelete == 0
    ensures afterRewrite == Ok(second) && stampAfterRewrite == t2
  {
    var manager := new InMemoryJavaFileManager(fileUri, javaFileUri, deduceKind, charset);
    var file := manager.GetFileForOutput(ClassOutput, "com.foo", "data.bin");
    var out := file.OpenOutputStream();
    out.Write(first);
    out.Close(t1);
    deleted := file.Delete();
    assert file.State() == Empty;
    afterDelete := file.OpenInputStream();
    stampAfterDelete := file.GetLastModified();
    var rewrite := file.OpenOutputStream();
    rewrite.Write(second);
    assert rewrite.buffer == second;
    rewrite.Close(t2);
    assert file.State() == FileState(Some(second), t2);
    afterRewrite := file.OpenInputStream();
    stampAfterRewrite := file.GetLastModified();
  }

  /**
   * A generated source (its URI under "/SOURCE_OUTPUT", its kind SOURCE) and a class file
   * (its URI elsewhere) are both outputs, but only the source is listed among the generated sources.
   */
  method GeneratedSourcesFilter(fileUri: (Location, string, string) -> Uri,
                                javaFileUri: (Location, string, Kind) -> Uri,
                                deduceKind: Uri -> Kind, charset: Charset, className: string)
    returns (sourceListed: bool, classListed: bool, outputs: nat)
    requires GeneratedSourcesRoot() <= javaFileUri(SourceOutput, className, Source).path
    requires !(GeneratedSourcesRoot() <= javaFileUri(ClassOutput, className, Class).path)
    requires deduceKind(javaFileUri(SourceOutput, className, Source)) == Source
    ensures sourceListed && !classListed && outputs == 2
  {
    var manager := new InMemoryJavaFileManager(fileUri, javaFileUri, deduceKind, charset);
    var source := manager.GetJavaFileForOutput(SourceOutput, className, Source);
    var classFile := manager.GetJavaFileForOutput(ClassOutput, className, Class);
    assert IsGeneratedSource(source.uri, source.kind);
    assert !IsGeneratedSource(classFile.uri, classFile.kind);
    assert manager.cache == map[source.uri := source, classFile.uri := classFile];
    var sources := manager.GetGeneratedSourcesRenamed();
    outputs := |manager.OutputFiles()|;
    sourceListed := source in sources;
    classListed := classFile in sources;
  }
}
