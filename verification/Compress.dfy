/** Archiving and unarchiving (cmd/internal/compress/compress.go). The archive library is a
    pair of functions; what they are assumed to do is the predicate Sound. */
module Compress {
  import opened FileTree
  import opened Os
  import opened Layout
  import opened Decimal
  import opened Encryption

  datatype Archiver = Archiver(
    /** Archive of one directory: format, base name and contents. */
    pack: (string, string, Tree) -> seq<byte>,
    /** Base name and contents found in bytes of a format. */
    unpack: (string, seq<byte>) -> Option<(string, Tree)>)

  /** Those of the compression methods tar, targz and tarlz4. */
  const EXTENSIONS: set<string> := {".tar", ".tar.gz", ".tar.lz4"}

  /** An archive of a supported format gives back what was put in. */
  ghost predicate Sound(a: Archiver) {
    forall ext, base, tree :: ext in EXTENSIONS ==> a.unpack(ext, a.pack(ext, base, tree)) == Some((base, tree))
  }

  /** Unarchive picks the format by the end of the file name. */
  function FormatOf(name: string): Option<string> {
    if HasSuffix(name, ".tar") then Some(".tar")
    else if HasSuffix(name, ".tar.gz") then Some(".tar.gz")
    else if HasSuffix(name, ".tar.lz4") then Some(".tar.lz4")
    else None
  }

  lemma FormatOfName(name: string, ext: string)
    requires ext in EXTENSIONS
    ensures FormatOf(name + ext) == Some(ext) && Ext(name + ext) != SUFFIX && !HasSuffix(name + ext, SUFFIX)
  {
    var s := name + ext;
    assert s[|s| - |ext|..] == ext && s[|s| - 1] == ext[|ext| - 1];
    assert s[|s| - 4..][3] == s[|s| - 1];
    ExtSuffix(s);
  }

  /** A tree fits in below a path: what results is well-formed, and no file takes the place of anything. */
  predicate Fits(t: Tree, target: Path, tree: Tree) {
    WellFormed(Graft(t, target, tree)) && forall q :: q in tree && tree[q].File? ==> target + q !in t
  }

  class Compressor {
    const fs: FileSystem
    const archiver: Archiver
    const extension: string

    constructor (fs: FileSystem, archiver: Archiver, extension: string)
      requires extension in EXTENSIONS
      ensures this.fs == fs && this.archiver == archiver && this.extension == extension
    {
      this.fs := fs;
      this.archiver := archiver;
      this.extension := extension;
    }

    /** Archives the backup directory into a new file, which must not exist yet; the archive
        does not contain itself. */
    method Compress(dir: Path, name: string) returns (r: Result<Path>)
      requires fs.Valid()
      modifies fs
      ensures fs.Valid()
      ensures var out := dir + [name + extension];
              && fs.nodes - {out} == old(fs.nodes) - {out}
              && (r.Ok? ==>
                    && r.value == out && out !in old(fs.nodes)
                    && fs.nodes == old(fs.nodes)[out :=
                         File(archiver.pack(extension, FILES, Below(old(fs.nodes), BACKUP_DIR)))])
      ensures var out := dir + [name + extension];
              fs.faultless ==> (r.Ok? <==> out !in old(fs.nodes) && HasParent(old(fs.nodes), out))
    {
      var out := dir + [name + extension];
      var content := archiver.pack(extension, FILES, Below(fs.nodes, BACKUP_DIR));
      if out in fs.nodes {
        return Err;
      }
      var ok := fs.Create(out);
      if !ok {
        return Err;
      }
      ok := fs.Fill(out, content);
      r := if ok then Ok(out) else Err;
    }

    /** A file can be unpacked: its name tells the format, its bytes are an archive of it, and that fits in where it
        goes without overwriting a file. */
    ghost predicate Unpackable(t: Tree, file: Path)
      requires file != []
    {
      && FormatOf(file[|file| - 1]).Some? && IsFile(t, file)
      && var found := archiver.unpack(FormatOf(file[|file| - 1]).value, t[file].content);
         && found.Some? && Fits(t, DOWNLOAD_DIR + [found.value.0], found.value.1)
    }

    /** Unpacks next to the restore directory; existing files are not overwritten. A failure may
        leave part of the archive behind. */
    method Decompress(file: Path) returns (ok: bool)
      requires fs.Valid() && file != []
      modifies fs
      ensures fs.Valid() && OnlyWithin(old(fs.nodes), fs.nodes, DOWNLOAD_DIR)
      ensures ok ==>
                && FormatOf(file[|file| - 1]).Some? && IsFile(old(fs.nodes), file)
                && var found := archiver.unpack(FormatOf(file[|file| - 1]).value, old(fs.nodes[file]).content);
                   && found.Some?
                   && fs.nodes == Graft(old(fs.nodes), DOWNLOAD_DIR + [found.value.0], found.value.1)
      ensures fs.faultless ==> (ok <==> Unpackable(old(fs.nodes), file))
    {
      var format := FormatOf(file[|file| - 1]);
      ok := fs.OpenInput(file);
      if !ok || format.None? {
        return false;
      }
      var found := archiver.unpack(format.value, fs.nodes[file].content);
      if found.None? {
        return false;
      }
      var target := DOWNLOAD_DIR + [found.value.0];
      var tree := found.value.1;
      ok := *;
      ok := ok || fs.faultless;
      var nothing: Tree := map[];
      assert Graft(fs.nodes, target, nothing) == fs.nodes;
      var part := if ok then tree else nothing;
      if !ok {
        part :| WellFormed(Graft(fs.nodes, target, part)) && part.Keys <= tree.Keys;
      }
      if !Fits(fs.nodes, target, part) {
        return false;
      }
      GraftOnlyWithin(fs.nodes, target, part);
      OnlyWithinAbove(fs.nodes, Graft(fs.nodes, target, part), DOWNLOAD_DIR, [found.value.0]);
      fs.nodes := Graft(fs.nodes, target, part);
    }
  }
}
