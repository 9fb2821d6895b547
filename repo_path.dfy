/**
 * The repository argument `-r owner/name` and JavaScript's `split("/")`:
 * the owner is the first `/`-separated part, the repository name the second,
 * and `undefined` when the argument holds no `/`.
 */
module RepoPath {
  import opened Outcomes

  /** `s.split("/")`: the maximal `/`-free pieces of `s`, empty ones included. */
  function Split(s: string): (parts: seq<string>)
    ensures |parts| >= 1
    ensures forall k :: 0 <= k < |parts| ==> '/' !in parts[k]
    decreases |s|
  {
    if s == [] then [""]
    else
      var rest := Split(s[1..]);
      if s[0] == '/' then [""] + rest
      else [[s[0]] + rest[0]] + rest[1..]
  }

  /** `parts.join("/")`. */
  function Join(parts: seq<string>): string
    requires |parts| >= 1
    decreases |parts|
  {
    if |parts| == 1 then parts[0] else parts[0] + "/" + Join(parts[1..])
  }

  /** Number of `/` characters in `s`. */
  function Slashes(s: string): nat
  {
    if s == [] then 0 else (if s[0] == '/' then 1 else 0) + Slashes(s[1..])
  }

  /** Splitting loses nothing: joining the parts back gives the argument,
      and there is one more part than there are separators. */
  lemma {:induction false} SplitJoin(s: string)
    ensures Join(Split(s)) == s
    ensures |Split(s)| == Slashes(s) + 1
    decreases |s|
  {
    if s != [] {
      SplitJoin(s[1..]);
      var rest := Split(s[1..]);
      if s[0] == '/' {
        assert ([""] + rest)[1..] == rest;
      } else {
        var parts := [[s[0]] + rest[0]] + rest[1..];
        if |rest| > 1 {
          assert parts[1..] == rest[1..];
          assert Join(rest) == rest[0] + "/" + Join(rest[1..]);
        }
      }
      assert s == [s[0]] + s[1..];
    }
  }

  /** The two names the script passes as `user` and `repo`. */
  datatype Repository = Repository(owner: string, name: Option<string>)

  /** `argv.r.split("/")[0]` and `argv.r.split("/")[1]`. */
  function ParseRepository(arg: string): (r: Repository)
    ensures '/' !in r.owner
    ensures r.name.Some? <==> '/' in arg
    ensures r.name.Some? ==> '/' !in r.name.value
    ensures r.name.Some? ==> r.owner + "/" + r.name.value <= arg
    ensures r.name.Some? ==>
              r.owner + "/" + r.name.value == arg || r.owner + "/" + r.name.value + "/" <= arg
    ensures r.name.None? ==> r.owner == arg
  {
    var parts := Split(arg);
    SplitJoin(arg);
    SlashesCount(arg);
    assert |parts| > 1 ==> parts[1] <= Join(parts[1..]);
    assert |parts| > 2 ==> Join(parts[1..]) == parts[1] + "/" + Join(parts[2..]);
    Repository(parts[0], if |parts| > 1 then Some(parts[1]) else None)
  }

  /** A string has a `/` exactly when its count of them is positive. */
  lemma {:induction false} SlashesCount(s: string)
    ensures '/' in s <==> Slashes(s) > 0
    decreases |s|
  {
    if s != [] {
      SlashesCount(s[1..]);
      assert s == [s[0]] + s[1..];
    }
  }

  /** For `owner/name` with neither part holding a `/`, the two names come
      back out exactly (the usual `mozilla/popcornjs` form). */
  lemma ParseOwnerSlashName(owner: string, name: string)
    requires '/' !in owner && '/' !in name
    ensures ParseRepository(owner + "/" + name) == Repository(owner, Some(name))
  {
    var arg := owner + "/" + name;
    SplitJoin(arg);
    SplitNoSlash(name);
    SplitAfterPrefix(owner, name);
  }

  /** A `/`-free string is a single part. */
  lemma {:induction false} SplitNoSlash(s: string)
    requires '/' !in s
    ensures Split(s) == [s]
    decreases |s|
  {
    if s != [] {
      assert '/' !in s[1..];
      SplitNoSlash(s[1..]);
      assert s == [s[0]] + s[1..];
    }
  }

  /** A `/`-free prefix followed by `/` becomes the first part. */
  lemma {:induction false} SplitAfterPrefix(owner: string, rest: string)
    requires '/' !in owner
    ensures Split(owner + "/" + rest) == [owner] + Split(rest)
    decreases |owner|
  {
    if owner == [] {
      assert owner + "/" + rest == "/" + rest;
      assert ("/" + rest)[1..] == rest;
    } else {
      assert (owner + "/" + rest)[1..] == owner[1..] + "/" + rest;
      assert '/' !in owner[1..];
      SplitAfterPrefix(owner[1..], rest);
      assert owner == [owner[0]] + owner[1..];
    }
  }
}
