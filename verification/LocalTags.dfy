/** Locally pushed tags and their `_local_tags.json` sidecars
    (crates/quill-storage/src/local_tags.rs). The push date of a tag is left out. */
module LocalTags {

  import opened Base
  import opened Digests

  type TagKey = (Repo, string)

  type TagMap = map<string, string>

  /** `mem` is the in-memory map, `disk` the sidecar files; the values are the
      digest strings that both hold. */
  datatype Tags = Tags(mem: map<TagKey, string>, disk: map<Repo, TagMap>)

  /** `list_for_repo` */
  function RepoTags(mem: map<TagKey, string>, repo: Repo): TagMap {
    map k | k in mem && k.0 == repo :: k.1 := mem[k]
  }

  /** What a sidecar contributes; a missing file counts as no tags. */
  function DiskTags(disk: map<Repo, TagMap>, repo: Repo): TagMap {
    if repo in disk then disk[repo] else map[]
  }

  /** `write_atomic` of the snapshot of `repo`: temp file, then rename. */
  function WriteSidecar(t: Tags, repo: Repo, writeOk: bool): Tags {
    if writeOk then t.(disk := t.disk[repo := RepoTags(t.mem, repo)]) else t
  }

  /** `LocalTagsStore::set`: memory is updated first, and stays updated when the
      sidecar cannot be written. */
  function Set(t: Tags, repo: Repo, tag: string, d: Digest, writeOk: bool): Tags {
    WriteSidecar(t.(mem := t.mem[(repo, tag) := Display(d)]), repo, writeOk)
  }

  /** `LocalTagsStore::remove`: no write when the tag is not there. */
  function Remove(t: Tags, repo: Repo, tag: string, writeOk: bool): Tags {
    if (repo, tag) !in t.mem then t
    else WriteSidecar(t.(mem := t.mem - {(repo, tag)}), repo, writeOk)
  }

  function Qualified(tags: TagMap, repo: Repo): map<TagKey, string> {
    map tag | tag in tags :: (repo, tag) := tags[tag]
  }

  /** `LocalTagsStore::load_repo`: the sidecar overrides what memory holds. */
  function LoadRepo(t: Tags, repo: Repo): Tags {
    t.(mem := t.mem + Qualified(DiskTags(t.disk, repo), repo))
  }

  /** Startup does not look for sidecars inside directories of these names
      (crates/quill-server/src/main.rs:345), so a repository below one is not
      loaded again. */
  predicate Reloadable(repo: Repo) {
    "blobs" !in repo && "_uploads" !in repo
  }

  /** The tags after a restart: every sidecar the startup scan finds. */
  function ReloadTags(disk: map<Repo, TagMap>): Tags {
    Tags(map k | k in FoundTags(disk) :: disk[k.0][k.1], disk)
  }

  /** The tags in the sidecars that startup finds. */
  function FoundTags(disk: map<Repo, TagMap>): set<TagKey> {
    set repo, tag | repo in disk && tag in disk[repo] && Reloadable(repo) :: (repo, tag)
  }

  class LocalTagsStore {
    var tags: Tags

    constructor (disk: map<Repo, TagMap>)
      ensures tags == Tags(map[], disk)
    {
      tags := Tags(map[], disk);
    }

    method Get(repo: Repo, tag: string) returns (d: Option<string>)
      ensures d == if (repo, tag) in tags.mem then Some(tags.mem[(repo, tag)]) else None
    {
      d := if (repo, tag) in tags.mem then Some(tags.mem[(repo, tag)]) else None;
    }

    method SetTag(repo: Repo, tag: string, d: Digest, writeOk: bool) returns (ok: bool)
      modifies this
      ensures tags == Set(old(tags), repo, tag, d, writeOk) && ok == writeOk
      ensures ok ==> DiskTags(tags.disk, repo) == RepoTags(tags.mem, repo)
    {
      tags := tags.(mem := tags.mem[(repo, tag) := Display(d)]);
      var snapshot := RepoTags(tags.mem, repo);
      ok := writeOk;
      if writeOk {
        tags := tags.(disk := tags.disk[repo := snapshot]);
      }
    }

    /** `None` stands for the I/O error. */
    method RemoveTag(repo: Repo, tag: string, writeOk: bool) returns (removed: Option<bool>)
      modifies this
      ensures tags == Remove(old(tags), repo, tag, writeOk)
      ensures removed == if (repo, tag) !in old(tags.mem) then Some(false) else if writeOk then Some(true) else None
      ensures (repo, tag) !in tags.mem && tags.mem == old(tags.mem) - {(repo, tag)}
      ensures removed == Some(true) ==> DiskTags(tags.disk, repo) == RepoTags(tags.mem, repo)
      ensures removed == Some(true) ==> tag !in DiskTags(tags.disk, repo)
    {
      if (repo, tag) !in tags.mem {
        return Some(false);
      }
      tags := tags.(mem := tags.mem - {(repo, tag)});
      var snapshot := RepoTags(tags.mem, repo);
      if !writeOk {
        return None;
      }
      tags := tags.(disk := tags.disk[repo := snapshot]);
      removed := Some(true);
    }

    method Load(repo: Repo)
      modifies this
      ensures tags == LoadRepo(old(tags), repo)
    {
      var found := DiskTags(tags.disk, repo);
      var rest := found.Keys;
      ghost var start := tags;
      while rest != {}
        invariant rest <= found.Keys
        invariant tags == start.(mem := start.mem + Qualified(found - rest, repo))
      {
        var tag :| tag in rest;
        LoadOneMore(start.mem, found, rest, tag, repo);
        tags := tags.(mem := tags.mem[(repo, tag) := found[tag]]);
        rest := rest - {tag};
      }
      assert found - {} == found;
    }
  }

  lemma LoadOneMore(mem: map<TagKey, string>, found: TagMap, rest: set<string>, tag: string, repo: Repo)
    requires tag in rest && rest <= found.Keys
    ensures (mem + Qualified(found - rest, repo))[(repo, tag) := found[tag]] ==
            mem + Qualified(found - (rest - {tag}), repo)
  {
    var was, now := Qualified(found - rest, repo), Qualified(found - (rest - {tag}), repo);
    var more := was[(repo, tag) := found[tag]];
    forall k: TagKey ensures (k in now <==> k in more) && (k in now ==> now[k] == more[k]) {
      QualifiedMore(found, rest, tag, repo, k);
    }
    assert now.Keys == more.Keys;
    assert now == more;
  }

  lemma QualifiedMore(found: TagMap, rest: set<string>, tag: string, repo: Repo, k: TagKey)
    requires tag in rest && rest <= found.Keys
    ensures var was, now := Qualified(found - rest, repo), Qualified(found - (rest - {tag}), repo);
            && (k in now <==> k in was || k == (repo, tag))
            && (k in now ==> now[k] == if k == (repo, tag) then found[tag] else was[k])
  {
    QualifiedExact(found - rest, repo, k);
    QualifiedExact(found - (rest - {tag}), repo, k);
  }

  lemma QualifiedExact(tags: TagMap, repo: Repo, k: TagKey)
    ensures k in Qualified(tags, repo) <==> k.0 == repo && k.1 in tags
    ensures k in Qualified(tags, repo) ==> Qualified(tags, repo)[k] == tags[k.1]
  {
    assert k == (k.0, k.1);
  }

  lemma RepoTagsExact(mem: map<TagKey, string>, repo: Repo, tag: string)
    ensures tag in RepoTags(mem, repo) <==> (repo, tag) in mem
    ensures tag in RepoTags(mem, repo) ==> RepoTags(mem, repo)[tag] == mem[(repo, tag)]
  {
  }

  /** Loading, tag by tag: what the sidecar holds overrides memory, the rest stays. */
  lemma LoadExact(t: Tags, repo: Repo, k: TagKey)
    ensures var mem := LoadRepo(t, repo).mem;
            if k.0 == repo && repo in t.disk && k.1 in t.disk[repo] then k in mem && mem[k] == t.disk[repo][k.1]
            else (k in mem <==> k in t.mem) && (k in t.mem ==> mem[k] == t.mem[k])
    ensures LoadRepo(t, repo).disk == t.disk
  {
    assert k == (k.0, k.1);
  }

  /** On an empty memory, loading restores exactly what the sidecar holds. */
  lemma LoadRestores(disk: map<Repo, TagMap>, repo: Repo)
    ensures RepoTags(LoadRepo(Tags(map[], disk), repo).mem, repo) == DiskTags(disk, repo)
  {
    var found := DiskTags(disk, repo);
    var mem := Qualified(found, repo);
    assert LoadRepo(Tags(map[], disk), repo).mem == mem;
    forall tag ensures tag in RepoTags(mem, repo) <==> tag in found {
      RepoTagsExact(mem, repo, tag);
    }
  }

}
