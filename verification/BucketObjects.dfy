/** The names that sidecars give their objects in a shared bucket (UploadBackup of
    cmd/internal/backup/providers/s3/s3.go and cmd/internal/backup/providers/gcp/gcp.go), and what a prefix covers. */
module BucketObjects {
  /** The object of a sidecar: the base name is a fixed word and the provider's suffix. */
  function ObjectName(prefix: string, base: string): string {
    if prefix == "" then base else prefix + "/" + base
  }

  predicate IsBase(base: string) {
    base != "" && '/' !in base
  }

  /** The prefix of one sidecar as a directory, as the S3 rule has it, covers the object of another one exactly
      when that one's directory lies in it; so never an object without a prefix. */
  lemma DirectoryCovers(mine: string, other: string, base: string)
    requires IsBase(base)
    ensures mine + "/" <= ObjectName(other, base) <==> other != "" && mine + "/" <= other + "/"
  {
    var dir, name := mine + "/", ObjectName(other, base);
    assert dir[|mine|] == '/';
    if other != "" {
      assert name == (other + "/") + base;
      assert forall i :: |other| < i < |name| ==> name[i] == base[i - |other| - 1];
      assert |mine| <= |other| ==> name[..|dir|] == (other + "/")[..|dir|];
    }
  }

  /** Without the slash, as the GCP rule and both listings have it, a prefix covers the objects of every sidecar whose
      prefix begins with it. */
  lemma PrefixCovers(mine: string, other: string, base: string)
    requires IsBase(base) && '/' !in mine
    ensures mine <= ObjectName(other, base) <==> mine <= if other == "" then base else other
  {
    var name := ObjectName(other, base);
    if other != "" {
      assert name == other + ("/" + base) && name[|other|] == '/';
      assert |mine| <= |other| ==> name[..|mine|] == other[..|mine|];
    }
  }

  /** Different prefixes without a slash are different directories. */
  lemma FlatDirectories(mine: string, other: string)
    requires '/' !in mine && '/' !in other
    ensures mine + "/" <= other + "/" <==> mine == other
  {
    var a, b := mine + "/", other + "/";
    assert a[|mine|] == '/' && a[..|mine|] == mine && b[..|other|] == other;
    assert forall i :: 0 <= i < |other| ==> b[i] == other[i];
  }

  /** ListBackups asks for all objects that begin with the prefix: a sidecar "db" lists, and may restore, the
      backups of a sidecar "db2". */
  lemma ListsAnother(base: string)
    requires IsBase(base)
    ensures "db" <= ObjectName("db2", base) && !("db/" <= ObjectName("db2", base))
  {
    PrefixCovers("db", "db2", base);
    DirectoryCovers("db", "db2", base);
    assert "db" + "/" == "db/";
    assert ("db/")[2] == '/' && ("db2" + "/")[2] == '2';
  }
}
