/** The two recognisers of content-hashed asset paths: the backend's suffix-stripping code and
    the service worker's regular expression. */
module HashedAsset {
  import opened Wrappers

  /** The last position of `c`, or -1. */
  function LastIndex(s: string, c: char): (k: int)
    ensures -1 <= k < |s|
    ensures k >= 0 ==> s[k] == c
    ensures forall i :: k < i < |s| ==> s[i] != c
  {
    if s == "" then -1
    else if s[|s| - 1] == c then |s| - 1
    else LastIndex(s[..|s| - 1], c)
  }

  function LastSegment(path: string): string {
    path[LastIndex(path, '/') + 1..]
  }

  predicate EndsWith(s: string, suffix: string) {
    |suffix| <= |s| && s[|s| - |suffix|..] == suffix
  }

  function StripSuffix(s: string, suffix: string): Option<string> {
    if EndsWith(s, suffix) then Some(s[..|s| - |suffix|]) else None
  }

  function OrElse(s: Option<string>, t: Option<string>): Option<string> {
    if s.Some? then s else t
  }

  function Stem(file: string): Option<string> {
    OrElse(StripSuffix(file, ".js"), OrElse(StripSuffix(file, ".css"), StripSuffix(file, ".wasm")))
  }

  function WithoutBg(stem: string): string {
    if EndsWith(stem, "_bg") then stem[..|stem| - 3] else stem
  }

  predicate IsLowerHex(c: char) {
    '0' <= c <= '9' || 'a' <= c <= 'f'
  }

  predicate IsHex(c: char) {
    IsLowerHex(c) || 'A' <= c <= 'F'
  }

  predicate AllHex(s: string) {
    forall i :: 0 <= i < |s| ==> IsHex(s[i])
  }

  predicate AllLowerHex(s: string) {
    forall i :: 0 <= i < |s| ==> IsLowerHex(s[i])
  }

  /** What follows the last dash of the stem, if anything stands before that dash. */
  function Hash(path: string): Option<string> {
    var stem := Stem(LastSegment(path));
    if stem.None? then None
    else
      var base := WithoutBg(stem.value);
      var dash := LastIndex(base, '-');
      if dash <= 0 then None else Some(base[dash + 1..])
  }

  predicate IsContentHashedAsset(path: string) {
    var hash := Hash(path);
    hash.Some? && 12 <= |hash.value| <= 16 && AllHex(hash.value)
  }

  // ---------------------------------------------------------------- the pattern

  datatype Parts = Parts(dir: string, name: string, hash: string, bg: bool, ext: string)

  function File(p: Parts): string {
    p.name + "-" + p.hash + (if p.bg then "_bg" else "") + "." + p.ext
  }

  function Text(p: Parts): string {
    p.dir + File(p)
  }

  /** A directory, or nothing; a name; a hash of 12 to 16 hex digits; and one of the extensions. */
  predicate WellFormed(p: Parts) {
    && (p.dir == "" || p.dir[|p.dir| - 1] == '/')
    && p.name != "" && (forall i :: 0 <= i < |p.name| ==> p.name[i] != '/')
    && 12 <= |p.hash| <= 16 && AllHex(p.hash)
    && (p.ext == "js" || p.ext == "css" || p.ext == "wasm")
  }

  /** The service worker's expression: anything, a slash, a name without one, and a lower-case
      hash, up to the very end. */
  ghost predicate ExpressionMatches(path: string) {
    exists p: Parts :: WellFormed(p) && p.dir != "" && AllLowerHex(p.hash) && Text(p) == path
  }

  // ---------------------------------------------------------------- taking a path apart

  lemma {:induction false} LastIndexAt(a: string, c: char, b: string)
    requires forall i :: 0 <= i < |b| ==> b[i] != c
    ensures LastIndex(a + [c] + b, c) == |a|
  {
    var s := a + [c] + b;
    var k := LastIndex(s, c);
    assert s[|a|] == c;
    assert forall i :: |a| < i < |s| ==> s[i] == b[i - |a| - 1];
  }

  lemma NoIndex(b: string, c: char)
    requires forall i :: 0 <= i < |b| ==> b[i] != c
    ensures LastIndex(b, c) == -1
  {
  }

  lemma NoSlashInFile(p: Parts)
    requires WellFormed(p)
    ensures forall i :: 0 <= i < |File(p)| ==> File(p)[i] != '/'
  {
  }

  lemma SegmentOfText(p: Parts)
    requires WellFormed(p)
    ensures LastSegment(Text(p)) == File(p)
  {
    NoSlashInFile(p);
    if p.dir == "" {
      NoIndex(File(p), '/');
      assert Text(p) == File(p);
    } else {
      var d := p.dir[..|p.dir| - 1];
      assert Text(p) == d + ['/'] + File(p);
      LastIndexAt(d, '/', File(p));
    }
  }

  lemma StripBack(s: string, suffix: string)
    ensures StripSuffix(s + suffix, suffix) == Some(s)
  {
  }

  lemma Differs(s: string, suffix: string, i: nat)
    requires i < |suffix| <= |s| && s[|s| - |suffix| + i] != suffix[i]
    ensures !EndsWith(s, suffix)
  {
  }

  lemma CssIsNotJs(s: string)
    ensures !EndsWith(s + ".css", ".js")
  {
    var file := s + ".css";
    assert file[|file| - 2] == 's';
    Differs(file, ".js", 1);
  }

  lemma WasmIsNeither(s: string)
    ensures !EndsWith(s + ".wasm", ".js") && !EndsWith(s + ".wasm", ".css")
  {
    var file := s + ".wasm";
    assert file[|file| - 1] == 'm';
    Differs(file, ".js", 2);
    Differs(file, ".css", 3);
  }

  lemma OnlyOneExtension(s: string, ext: string)
    requires ext == "js" || ext == "css" || ext == "wasm"
    ensures Stem(s + "." + ext) == Some(s)
  {
    hide EndsWith, StripSuffix;
    assert s + "." + ext == s + ("." + ext);
    if ext == "js" {
      assert "." + ext == ".js";
      StripBack(s, ".js");
    } else if ext == "css" {
      assert "." + ext == ".css";
      StripBack(s, ".css");
      CssIsNotJs(s);
      Unstripped(s + ".css", ".js");
    } else {
      assert "." + ext == ".wasm";
      StripBack(s, ".wasm");
      WasmIsNeither(s);
      Unstripped(s + ".wasm", ".js");
      Unstripped(s + ".wasm", ".css");
    }
  }

  lemma Unstripped(s: string, suffix: string)
    requires !EndsWith(s, suffix)
    ensures StripSuffix(s, suffix) == None
  {
  }

  lemma BgComesOff(p: Parts)
    requires WellFormed(p)
    ensures WithoutBg(p.name + "-" + p.hash + (if p.bg then "_bg" else "")) == p.name + "-" + p.hash
  {
    var base := p.name + "-" + p.hash;
    if p.bg {
      StripBack(base, "_bg");
    } else {
      assert base + "" == base;
      assert IsHex(base[|base| - 1]) by {
        assert base[|base| - 1] == p.hash[|p.hash| - 1];
      }
      Differs(base, "_bg", 2);
    }
  }

  lemma HashOfText(p: Parts)
    requires WellFormed(p)
    ensures Hash(Text(p)) == Some(p.hash)
  {
    hide WithoutBg, Stem, LastSegment;
    SegmentOfText(p);
    var stem := p.name + "-" + p.hash + (if p.bg then "_bg" else "");
    assert File(p) == stem + "." + p.ext;
    OnlyOneExtension(stem, p.ext);
    BgComesOff(p);
    var base := p.name + "-" + p.hash;
    assert base == p.name + ['-'] + p.hash;
    LastIndexAt(p.name, '-', p.hash);
    assert base[|p.name| + 1..] == p.hash;
  }

  // ---------------------------------------------------------------- putting it together again

  /** The parts the stripping code goes through. */
  function Dissect(path: string): Parts
    requires IsContentHashedAsset(path)
  {
    var file := LastSegment(path);
    var stem := Stem(file).value;
    var base := WithoutBg(stem);
    Parts(path[..|path| - |file|], base[..LastIndex(base, '-')], Hash(path).value, EndsWith(stem, "_bg"),
          file[|stem| + 1..])
  }

  lemma UnStrip(s: string, suffix: string)
    requires EndsWith(s, suffix)
    ensures s == s[..|s| - |suffix|] + suffix
  {
  }

  lemma StemSplits(file: string)
    requires Stem(file).Some?
    ensures
      var stem := Stem(file).value;
      && |stem| < |file| && file == stem + "." + file[|stem| + 1..]
      && (file[|stem| + 1..] == "js" || file[|stem| + 1..] == "css" || file[|stem| + 1..] == "wasm")
  {
    var stem := Stem(file).value;
    if EndsWith(file, ".js") {
      UnStrip(file, ".js");
      assert file[|stem| + 1..] == "js";
    } else if EndsWith(file, ".css") {
      UnStrip(file, ".css");
      assert file[|stem| + 1..] == "css";
    } else {
      UnStrip(file, ".wasm");
      assert file[|stem| + 1..] == "wasm";
    }
  }

  lemma BaseSplits(base: string)
    requires LastIndex(base, '-') > 0
    ensures base == base[..LastIndex(base, '-')] + "-" + base[LastIndex(base, '-') + 1..]
  {
  }

  lemma StemOfBase(stem: string)
    ensures stem == WithoutBg(stem) + (if EndsWith(stem, "_bg") then "_bg" else "")
  {
  }

  lemma DissectText(path: string)
    requires IsContentHashedAsset(path)
    ensures Text(Dissect(path)) == path
  {
    hide Stem, AllHex, WithoutBg, EndsWith;
    var p := Dissect(path);
    var file := LastSegment(path);
    StemSplits(file);
    var stem := Stem(file).value;
    StemOfBase(stem);
    BaseSplits(WithoutBg(stem));
    assert File(p) == file;
    assert path == p.dir + file;
  }

  lemma NameIsPlain(path: string)
    requires IsContentHashedAsset(path)
    ensures var p := Dissect(path); forall i :: 0 <= i < |p.name| ==> p.name[i] != '/'
  {
    hide Stem, AllHex, LastIndex;
    var p := Dissect(path);
    var file := LastSegment(path);
    StemSplits(file);
    assert forall i :: 0 <= i < |p.name| ==> p.name[i] == file[i];
    assert forall i :: 0 <= i < |file| ==> file[i] == path[LastIndex(path, '/') + 1 + i];
  }

  lemma DissectSound(path: string)
    requires IsContentHashedAsset(path)
    ensures WellFormed(Dissect(path)) && Text(Dissect(path)) == path
    ensures Dissect(path).hash == Hash(path).value
  {
    hide Stem, AllHex, WithoutBg, EndsWith, Text;
    DissectText(path);
    NameIsPlain(path);
    StemSplits(LastSegment(path));
  }

  /** The stripping code accepts exactly the paths of the pattern, either case of hex digit. */
  lemma StrippingIsThePattern(path: string)
    ensures IsContentHashedAsset(path) <==> exists p: Parts :: WellFormed(p) && Text(p) == path
  {
    hide Text, Hash, Dissect;
    if IsContentHashedAsset(path) {
      DissectSound(path);
    }
    forall p: Parts | WellFormed(p) && Text(p) == path ensures IsContentHashedAsset(path) {
      HashOfText(p);
    }
  }

  /** The service worker accepts exactly what the backend accepts under a directory with a
      lower-case hash. */
  lemma RecognisersAgreeExactly(path: string)
    ensures ExpressionMatches(path) <==>
      IsContentHashedAsset(path) && '/' in path && AllLowerHex(Hash(path).value)
  {
    hide Hash, Dissect, AllHex, AllLowerHex;
    forall p: Parts | WellFormed(p) && p.dir != "" && AllLowerHex(p.hash) && Text(p) == path
      ensures IsContentHashedAsset(path) && '/' in path && AllLowerHex(Hash(path).value)
    {
      HashOfText(p);
      assert path[|p.dir| - 1] == '/';
    }
    if IsContentHashedAsset(path) && '/' in path && AllLowerHex(Hash(path).value) {
      DissectSound(path);
      SlashMeansDirectory(path);
    }
  }

  lemma SlashMeansDirectory(path: string)
    requires IsContentHashedAsset(path) && '/' in path
    ensures Dissect(path).dir != ""
  {
  }

  /** On a URL's path the two differ exactly on a hash with an upper-case digit. */
  lemma UrlPathsDifferOnUpperCase(path: string)
    requires path != "" && path[0] == '/'
    ensures (IsContentHashedAsset(path) != ExpressionMatches(path)) <==>
      IsContentHashedAsset(path) && !AllLowerHex(Hash(path).value)
  {
    RecognisersAgreeExactly(path);
  }

  lemma UpperCaseHashDiffers()
    ensures IsContentHashedAsset("/a-0123456789AB.js") && !ExpressionMatches("/a-0123456789AB.js")
  {
    var p := Parts("/", "a", "0123456789AB", false, "js");
    assert Text(p) == "/a-0123456789AB.js";
    HashOfText(p);
    RecognisersAgreeExactly(Text(p));
    assert !IsLowerHex(p.hash[10]);
  }
}
