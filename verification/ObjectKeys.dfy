/** The object keys of the session archive: deterministic, pairwise different, and never the
    name of a temporary file. */
module ObjectKeys {

  predicate UuidChar(c: char) {
    '0' <= c <= '9' || 'a' <= c <= 'f' || c == '-'
  }

  /** A UUID as the key functions render it: 36 lower-case hex digits and dashes. */
  type Uuid = s: string | |s| == 36 && forall i :: 0 <= i < 36 ==> UuidChar(s[i])
    witness seq(36, i => '0')

  datatype Key =
    | Manifest(user: Uuid, session: Uuid)
    | Transcript(user: Uuid, session: Uuid)
    | Media(user: Uuid, session: Uuid, media: Uuid)
    | Sidecar(user: Uuid, session: Uuid, media: Uuid)

  function SessionDir(user: Uuid, session: Uuid): string {
    "v1/users/" + user + "/sessions/" + session
  }

  /** Path of the key's directory, without the final slash. */
  function Dir(k: Key): string {
    match k
    case Manifest(u, s) => SessionDir(u, s)
    case Transcript(u, s) => SessionDir(u, s)
    case Media(u, s, _) => SessionDir(u, s) + "/media"
    case Sidecar(u, s, _) => SessionDir(u, s) + "/media"
  }

  function File(k: Key): string {
    match k
    case Manifest(_, _) => "manifest.json"
    case Transcript(_, _) => "messages.ndjson.zst"
    case Media(_, _, m) => m
    case Sidecar(_, _, m) => m + ".meta.json"
  }

  function Path(k: Key): string {
    Dir(k) + "/" + File(k)
  }

  /** The part of a path after its last slash. */
  function FileName(p: string): string {
    if p == [] || p[|p| - 1] == '/' then [] else FileName(p[..|p| - 1]) + [p[|p| - 1]]
  }

  lemma FileNameFits(p: string)
    ensures |FileName(p)| <= |p|
  {
  }

  /** Where `write_atomic` puts the bytes before it renames them into place. */
  function TempPath(p: string): string {
    FileNameFits(p);
    p[..|p| - |FileName(p)|] + "." + FileName(p) + ".tmp"
  }

  // ---------------------------------------------------------------- keys never collide

  lemma SessionDirParts(u: Uuid, s: Uuid)
    ensures |SessionDir(u, s)| == 91
    ensures SessionDir(u, s)[9..45] == u && SessionDir(u, s)[55..] == s
  {
  }

  lemma SessionDirInjective(u: Uuid, s: Uuid, u': Uuid, s': Uuid, t: string, t': string)
    requires SessionDir(u, s) + t == SessionDir(u', s') + t'
    ensures u == u' && s == s' && t == t'
  {
    SessionDirParts(u, s);
    SessionDirParts(u', s');
    var p := SessionDir(u, s) + t;
    assert p[..91] == SessionDir(u, s) && p[..91] == SessionDir(u', s');
    assert p[91..] == t && p[91..] == t';
  }

  function Tail(k: Key): string {
    match k
    case Manifest(_, _) => "/manifest.json"
    case Transcript(_, _) => "/messages.ndjson.zst"
    case Media(_, _, m) => "/media/" + m
    case Sidecar(_, _, m) => "/media/" + m + ".meta.json"
  }

  lemma MediaTail(d: string, file: string)
    ensures d + "/media" + "/" + file == d + ("/media/" + file)
  {
  }

  lemma PathTail(k: Key)
    ensures Path(k) == SessionDir(k.user, k.session) + Tail(k)
  {
    hide SessionDir;
    var d := SessionDir(k.user, k.session);
    match k
    case Manifest(_, _) => assert d + "/" + "manifest.json" == d + "/manifest.json";
    case Transcript(_, _) => assert d + "/" + "messages.ndjson.zst" == d + "/messages.ndjson.zst";
    case Media(_, _, m) => MediaTail(d, m);
    case Sidecar(_, _, m) =>
      MediaTail(d, m + ".meta.json");
      assert "/media/" + m + ".meta.json" == "/media/" + (m + ".meta.json");
  }

  lemma TailLength(k: Key)
    ensures |Tail(k)| == if k.Manifest? then 14 else if k.Transcript? then 20 else if k.Media? then 43 else 53
    ensures (k.Media? || k.Sidecar?) ==> Tail(k)[7..43] == k.media
  {
  }

  /** Two different objects, of any session of any user, never share a path: an archive write
      overwrites its own object and nothing else. */
  lemma PathInjective(k: Key, k': Key)
    ensures Path(k) == Path(k') <==> k == k'
  {
    if Path(k) == Path(k') {
      PathTail(k);
      PathTail(k');
      SessionDirInjective(k.user, k.session, k'.user, k'.session, Tail(k), Tail(k'));
      TailLength(k);
      TailLength(k');
    }
  }

  // ---------------------------------------------------------------- temporary names

  predicate NoSlash(f: string) {
    forall i :: 0 <= i < |f| ==> f[i] != '/'
  }

  lemma {:induction false} FileNameOf(dir: string, f: string)
    requires NoSlash(f)
    ensures FileName(dir + "/" + f) == f
  {
    var p := dir + "/" + f;
    if f == [] {
      assert p[|p| - 1] == '/';
    } else {
      var g := f[..|f| - 1];
      FileNameOf(dir, g);
      assert p[..|p| - 1] == dir + "/" + g;
      assert f == g + [f[|f| - 1]];
    }
  }

  lemma FilePlain(k: Key)
    ensures NoSlash(File(k)) && File(k) != [] && File(k)[0] != '.'
  {
  }

  /** The temporary name of a plain file: the same directory, and a dotted name. */
  lemma TempPathOf(dir: string, f: string)
    requires NoSlash(f)
    ensures TempPath(dir + "/" + f) == dir + "/" + ("." + f + ".tmp")
    ensures FileName(TempPath(dir + "/" + f)) == "." + f + ".tmp"
  {
    var p, t := dir + "/" + f, "." + f + ".tmp";
    FileNameOf(dir, f);
    assert p[..|p| - |f|] == dir + "/";
    assert TempPath(p) == dir + "/" + t;
    assert NoSlash(".tmp") && NoSlash(t);
    FileNameOf(dir, t);
  }

  /** A temporary name is no object's path, so no reader ever sees a half-written object. */
  lemma TempPathIsNoKey(k: Key, k': Key)
    ensures TempPath(Path(k)) != Path(k')
  {
    hide Dir, File, FileName, TempPath;
    FilePlain(k);
    FilePlain(k');
    TempPathOf(Dir(k), File(k));
    FileNameOf(Dir(k'), File(k'));
  }
}
