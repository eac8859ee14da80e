/**
 The broker's judgment of a suspended open, bit by bit: which openat and openat2 calls may
 be granted, confined how, and with which errno the others are denied.
 */
module OpenClassifier {
  import opened Common

  const RESOLVE_NO_XDEV: bv64 := 0x1
  const RESOLVE_NO_MAGICLINKS: bv64 := 0x2
  const RESOLVE_NO_SYMLINKS: bv64 := 0x4
  const RESOLVE_BENEATH: bv64 := 0x8
  const RESOLVE_IN_ROOT: bv64 := 0x10
  const RESOLVE_CTIME: bv64 := 0x20
  const KNOWN_RESOLVE: bv64 :=
    RESOLVE_NO_XDEV | RESOLVE_NO_MAGICLINKS | RESOLVE_NO_SYMLINKS | RESOLVE_BENEATH | RESOLVE_IN_ROOT | RESOLVE_CTIME
  const CONTAINMENT: bv64 := RESOLVE_BENEATH | RESOLVE_IN_ROOT

  const OPEN_HOW_SIZE: bv64 := 24
  const MAX_PATH: nat := 4096

  // x86_64 open flags
  const O_ACCMODE: bv32 := 0x3
  const O_CREAT: bv32 := 0x40
  const O_TRUNC: bv32 := 0x200
  const O_NONBLOCK: bv32 := 0x800
  const O_DIRECT: bv32 := 0x4000
  const O_NOFOLLOW: bv32 := 0x20000
  const O_CLOEXEC: bv32 := 0x80000
  const O_PATH: bv32 := 0x200000
  const O_TMPFILE: bv32 := 0x410000

  datatype Errno = EPERM | ENOENT | E2BIG | EXDEV | EINVAL | ENAMETOOLONG

  datatype Denial = Denial(errno: Errno, reason: string)
  datatype Anchor = TaskRoot | TaskDir(dirfd: int)
  datatype Grant = Grant(anchored: Anchor, resolve: bv64, cloexec: bool, nonblock: bool)
  datatype Judgment = Granted(grant: Grant) | Denied(denial: Denial)

  datatype OpenHow = OpenHow(flags: bv64, mode: bv64, resolve: bv64)

  function CallerRestrictions(resolve: bv64): bv64 { resolve & KNOWN_RESOLVE & !CONTAINMENT }

  function LinkRule(flags: bv32): bv64 {
    if flags & O_NOFOLLOW != 0 then RESOLVE_NO_SYMLINKS else RESOLVE_NO_MAGICLINKS
  }

  function ResolveFlags(rooted: bool, noFollow: bool): bv64 {
    (if rooted then RESOLVE_IN_ROOT else RESOLVE_BENEATH) |
    CallerRestrictions(if noFollow then RESOLVE_NO_SYMLINKS else RESOLVE_NO_MAGICLINKS)
  }

  function CheckOpenFlags(flags: bv32): Option<Denial> {
    if flags & O_ACCMODE != 0 then Some(Denial(EPERM, "not read-only"))
    else if flags & O_TMPFILE == O_TMPFILE then Some(Denial(EPERM, "O_TMPFILE"))
    else if flags & O_CREAT != 0 then Some(Denial(EPERM, "O_CREAT"))
    else if flags & O_TRUNC != 0 then Some(Denial(EPERM, "O_TRUNC"))
    else if flags & O_PATH != 0 then Some(Denial(EPERM, "O_PATH"))
    else if flags & O_DIRECT != 0 then Some(Denial(EPERM, "O_DIRECT"))
    else None
  }

  function CheckPath(path: Bytes): Option<Denial> {
    if path == [] then Some(Denial(ENOENT, "empty path"))
    else if |path| >= MAX_PATH then Some(Denial(ENAMETOOLONG, "path too long"))
    else if 0 in path then Some(Denial(EINVAL, "NUL in path"))
    else None
  }

  predicate Absolute(path: Bytes) { path != [] && path[0] == 0x2F }

  function ClassifyOpenat(dirfd: int, flags: bv32, path: Bytes): Judgment {
    if CheckOpenFlags(flags).Some? then Denied(CheckOpenFlags(flags).value)
    else if CheckPath(path).Some? then Denied(CheckPath(path).value)
    else
      Granted(Grant(
        if Absolute(path) then TaskRoot else TaskDir(dirfd),
        ResolveFlags(Absolute(path), flags & O_NOFOLLOW != 0),
        flags & O_CLOEXEC != 0, flags & O_NONBLOCK != 0))
  }

  function ClassifyOpenat2(dirfd: int, size: bv64, how: OpenHow, path: Bytes): Judgment {
    if size > OPEN_HOW_SIZE then Denied(Denial(E2BIG, "oversized open_how"))
    else if size < OPEN_HOW_SIZE then Denied(Denial(EINVAL, "undersized open_how"))
    else if how.resolve & !KNOWN_RESOLVE != 0 then Denied(Denial(EINVAL, "unknown resolve flags"))
    else if how.resolve & CONTAINMENT == CONTAINMENT then
      Denied(Denial(EINVAL, "RESOLVE_BENEATH and RESOLVE_IN_ROOT are mutually exclusive"))
    else if how.flags >> 32 != 0 then Denied(Denial(EINVAL, "unknown high flag bits"))
    else Judge(dirfd, LowHalf(how.flags), how.resolve, path)
  }

  /** The cast to a 32-bit integer. */
  function LowHalf(flags: bv64): bv32 { (flags & 0xFFFF_FFFF) as bv32 }

  function Wide(flags: bv32): bv64 { flags as bv64 }

  /** The part of openat2's judgment after its arguments are well-formed. */
  function Judge(dirfd: int, flags: bv32, resolve: bv64, path: Bytes): Judgment {
    if CheckOpenFlags(flags).Some? then Denied(CheckOpenFlags(flags).value)
    else if CheckPath(path).Some? then Denied(CheckPath(path).value)
    else
      var restrictions := CallerRestrictions(resolve) | LinkRule(flags);
      if Absolute(path) then
        if resolve & RESOLVE_BENEATH != 0 then Denied(Denial(EXDEV, "absolute path under RESOLVE_BENEATH"))
        else Granted(Grant(TaskRoot, RESOLVE_IN_ROOT | restrictions, flags & O_CLOEXEC != 0, flags & O_NONBLOCK != 0))
      else
        var containment := if resolve & RESOLVE_IN_ROOT != 0 then RESOLVE_IN_ROOT else RESOLVE_BENEATH;
        Granted(Grant(TaskDir(dirfd), containment | restrictions, flags & O_CLOEXEC != 0, flags & O_NONBLOCK != 0))
  }

  /** A grant confines: one containment bit, magic links refused, nothing outside the known bits. */
  predicate Confining(resolve: bv64) {
    && (resolve & RESOLVE_IN_ROOT != 0) != (resolve & RESOLVE_BENEATH != 0)
    && resolve & (RESOLVE_NO_MAGICLINKS | RESOLVE_NO_SYMLINKS) != 0
    && resolve & !KNOWN_RESOLVE == 0
  }

  /** A grant never gives the caller less restriction than it asked for. */
  predicate Tightens(g: Grant, dirfd: int, asked: bv64, path: Bytes) {
    && Confining(g.resolve) && asked & g.resolve == asked
    && (g.resolve & RESOLVE_IN_ROOT != 0 <==> Absolute(path) || asked & RESOLVE_IN_ROOT != 0)
    && g.anchored == (if Absolute(path) then TaskRoot else TaskDir(dirfd))
  }

  lemma RestrictionBits(asked: bv64, link: bv64, containment: bv64)
    requires asked & !KNOWN_RESOLVE == 0 && asked & CONTAINMENT != CONTAINMENT
    requires link == RESOLVE_NO_SYMLINKS || link == RESOLVE_NO_MAGICLINKS
    requires containment == RESOLVE_IN_ROOT || containment == RESOLVE_BENEATH
    requires asked & RESOLVE_IN_ROOT != 0 ==> containment == RESOLVE_IN_ROOT
    requires asked & RESOLVE_BENEATH != 0 ==> containment == RESOLVE_BENEATH
    ensures
      var resolve := containment | (CallerRestrictions(asked) | link);
      Confining(resolve) && asked & resolve == asked && (resolve & RESOLVE_IN_ROOT != 0 <==> containment == RESOLVE_IN_ROOT)
  {
  }

  /**
   For all 64-bit arguments: an openat2 grant keeps every resolve restriction the caller asked
   for and is confined: rooted exactly when the path is absolute or the caller asked for
   RESOLVE_IN_ROOT, and anchored at the sandbox's root exactly when the path is absolute.
   */
  lemma GrantsOnlyTighten(dirfd: int, size: bv64, how: OpenHow, path: Bytes)
    requires ClassifyOpenat2(dirfd, size, how, path).Granted?
    ensures Tightens(ClassifyOpenat2(dirfd, size, how, path).grant, dirfd, how.resolve, path)
  {
    JudgeTightens(dirfd, LowHalf(how.flags), how.resolve, path);
  }

  lemma JudgeTightens(dirfd: int, flags: bv32, asked: bv64, path: Bytes)
    requires asked & !KNOWN_RESOLVE == 0 && asked & CONTAINMENT != CONTAINMENT
    requires Judge(dirfd, flags, asked, path).Granted?
    ensures Tightens(Judge(dirfd, flags, asked, path).grant, dirfd, asked, path)
  {
    var containment := if Absolute(path) || asked & RESOLVE_IN_ROOT != 0 then RESOLVE_IN_ROOT else RESOLVE_BENEATH;
    RestrictionBits(asked, LinkRule(flags), containment);
  }

  /** Every flag bit that excludes a grant on its own: unknown high bits, writing, creating, O_PATH, O_DIRECT. */
  const EXCLUDED: bv64 := 0xFFFF_FFFF_0020_4243

  predicate WellFormedPath(path: Bytes) { 0 < |path| < MAX_PATH && 0 !in path }

  predicate PlainFlags(flags: bv64) { flags & EXCLUDED == 0 && flags & 0x410000 != 0x410000 }

  predicate Has(flags: bv64, bit: bv64) { flags & bit != 0 }

  predicate PlainResolve(resolve: bv64) { resolve & !KNOWN_RESOLVE == 0 && resolve & CONTAINMENT != CONTAINMENT }

  /** What a grant may be asked for: a plain read with well-formed arguments. */
  predicate PlainRead(size: bv64, how: OpenHow, path: Bytes) {
    && size == OPEN_HOW_SIZE && PlainFlags(how.flags) && PlainResolve(how.resolve)
    && WellFormedPath(path) && !(Absolute(path) && Has(how.resolve, RESOLVE_BENEATH))
  }

  lemma LowFlags(flags: bv64)
    requires flags >> 32 == 0
    ensures Wide(LowHalf(flags)) == flags
  {
  }

  lemma HighBits(flags: bv64)
    ensures PlainFlags(flags) ==> flags >> 32 == 0
  {
  }

  /** The flag checks in order are one mask and the O_TMPFILE test. */
  lemma FlagMask(flags: bv32)
    ensures CheckOpenFlags(flags).None? <==> flags & 0x20_4243 == 0 && flags & O_TMPFILE != O_TMPFILE
  {
  }

  lemma WideMask(flags: bv32)
    ensures flags & 0x20_4243 == 0 && flags & O_TMPFILE != O_TMPFILE <==> PlainFlags(Wide(flags))
    ensures flags & O_CLOEXEC != 0 <==> Has(Wide(flags), 0x80000)
    ensures flags & O_NONBLOCK != 0 <==> Has(Wide(flags), 0x800)
    ensures flags & O_NOFOLLOW != 0 <==> Has(Wide(flags), 0x20000)
  {
  }

  const LINKS: bv64 := RESOLVE_NO_MAGICLINKS | RESOLVE_NO_SYMLINKS

  /**
   The descriptor flags of a grant are the caller's. Symbolic links are refused if and only if
   the caller asked, by O_NOFOLLOW or in the resolve bits; without O_NOFOLLOW magic links are.
   No restriction is added beyond these and containment.
   */
  predicate Mirrors(g: Grant, flags: bv64, asked: bv64) {
    && g.cloexec == Has(flags, 0x80000) && g.nonblock == Has(flags, 0x800)
    && LinksMirror(g.resolve, Has(flags, 0x20000), asked)
  }

  predicate LinksMirror(resolve: bv64, noFollow: bool, asked: bv64) {
    && (Has(resolve, RESOLVE_NO_SYMLINKS) <==> noFollow || Has(asked, RESOLVE_NO_SYMLINKS))
    && (Has(resolve, RESOLVE_NO_MAGICLINKS) <==> !noFollow || Has(asked, RESOLVE_NO_MAGICLINKS))
    && resolve & !CONTAINMENT & !LINKS == asked & !CONTAINMENT & !LINKS
  }

  lemma LinkBit(flags: bv32, containment: bv64, asked: bv64)
    requires asked & !KNOWN_RESOLVE == 0 && (containment == RESOLVE_IN_ROOT || containment == RESOLVE_BENEATH)
    ensures LinksMirror(containment | (CallerRestrictions(asked) | LinkRule(flags)), flags & O_NOFOLLOW != 0, asked)
  {
  }

  lemma PlainFlagsPass(flags: bv32)
    ensures CheckOpenFlags(flags).None? <==> PlainFlags(Wide(flags))
  {
    FlagMask(flags);
    WideMask(flags);
  }

  lemma JudgedIffPlainRead(dirfd: int, flags: bv32, asked: bv64, path: Bytes)
    ensures Judge(dirfd, flags, asked, path).Granted? <==>
      PlainFlags(Wide(flags)) && WellFormedPath(path) && !(Absolute(path) && Has(asked, RESOLVE_BENEATH))
  {
    PlainFlagsPass(flags);
    hide CheckOpenFlags, PlainFlags, Wide, LinkRule, CallerRestrictions;
  }

  lemma JudgedMirrors(dirfd: int, flags: bv32, asked: bv64, path: Bytes)
    requires asked & !KNOWN_RESOLVE == 0 && Judge(dirfd, flags, asked, path).Granted?
    ensures Mirrors(Judge(dirfd, flags, asked, path).grant, Wide(flags), asked)
  {
    hide CheckOpenFlags, CheckPath, PlainFlags, Wide, LinkRule, CallerRestrictions, Has, LinksMirror;
    WideMask(flags);
    var containment := if Absolute(path) || asked & RESOLVE_IN_ROOT != 0 then RESOLVE_IN_ROOT else RESOLVE_BENEATH;
    LinkBit(flags, containment, asked);
  }

  /** openat2's argument checks, and the flags the rest of its judgment sees. */
  lemma ArgumentsChecked(dirfd: int, size: bv64, how: OpenHow, path: Bytes) returns (flags: bv32)
    ensures
      var judgment := ClassifyOpenat2(dirfd, size, how, path);
      if size == OPEN_HOW_SIZE && PlainResolve(how.resolve) && how.flags >> 32 == 0
      then Wide(flags) == how.flags && judgment == Judge(dirfd, flags, how.resolve, path)
      else judgment.Denied? && judgment.denial.errno == (if size > OPEN_HOW_SIZE then E2BIG else EINVAL)
  {
    hide Judge, LowHalf, Wide;
    flags := LowHalf(how.flags);
    if how.flags >> 32 == 0 {
      LowFlags(how.flags);
    }
  }

  /** openat2 grants exactly the plain reads, and mirrors the caller's descriptor flags. */
  lemma GrantedIffPlainRead(dirfd: int, size: bv64, how: OpenHow, path: Bytes)
    ensures
      var judgment := ClassifyOpenat2(dirfd, size, how, path);
      && (judgment.Granted? <==> PlainRead(size, how, path))
      && (judgment.Granted? ==> Mirrors(judgment.grant, how.flags, how.resolve))
  {
    hide PlainFlags, Judge, Has, Mirrors, ClassifyOpenat2, Wide;
    HighBits(how.flags);
    var flags := ArgumentsChecked(dirfd, size, how, path);
    JudgedIffPlainRead(dirfd, flags, how.resolve, path);
    if PlainResolve(how.resolve) && Judge(dirfd, flags, how.resolve, path).Granted? {
      JudgedMirrors(dirfd, flags, how.resolve, path);
    }
  }

  /** Well-formed openat2 arguments, up to the meaning of the flags and the path. */
  predicate WellFormed(size: bv64, how: OpenHow) { size == OPEN_HOW_SIZE && PlainResolve(how.resolve) && how.flags >> 32 == 0 }

  /** Which error a refusal carries, for each error exactly when. */
  lemma DenialsByErrno(dirfd: int, size: bv64, how: OpenHow, path: Bytes)
    ensures
      var judgment := ClassifyOpenat2(dirfd, size, how, path);
      var readable := WellFormed(size, how) && PlainFlags(how.flags);
      judgment.Denied? ==>
        && (judgment.denial.errno == E2BIG <==> size > OPEN_HOW_SIZE)
        && (judgment.denial.errno == EPERM <==> WellFormed(size, how) && !PlainFlags(how.flags))
        && (judgment.denial.errno == ENOENT <==> readable && path == [])
        && (judgment.denial.errno == ENAMETOOLONG <==> readable && |path| >= MAX_PATH)
        && (judgment.denial.errno == EXDEV <==>
              readable && WellFormedPath(path) && Absolute(path) && Has(how.resolve, RESOLVE_BENEATH))
        && (judgment.denial.errno == EINVAL <==>
              (size <= OPEN_HOW_SIZE && !WellFormed(size, how)) || (readable && 0 < |path| < MAX_PATH && 0 in path))
  {
    hide PlainFlags, PlainResolve, Judge, Has, ClassifyOpenat2, Wide;
    var flags := ArgumentsChecked(dirfd, size, how, path);
    JudgedErrno(dirfd, flags, how.resolve, path);
  }

  lemma JudgedErrno(dirfd: int, flags: bv32, asked: bv64, path: Bytes)
    ensures
      var judgment := Judge(dirfd, flags, asked, path);
      judgment.Denied? ==>
        judgment.denial.errno ==
          if !PlainFlags(Wide(flags)) then EPERM
          else if path == [] then ENOENT
          else if |path| >= MAX_PATH then ENAMETOOLONG
          else if 0 in path then EINVAL
          else EXDEV
    ensures CrossesOut(Judge(dirfd, flags, asked, path)) ==> Absolute(path) && Has(asked, RESOLVE_BENEATH)
  {
    PlainFlagsPass(flags);
    RefusedFlags(flags);
    hide CheckOpenFlags, PlainFlags, Wide, LinkRule, CallerRestrictions;
  }

  predicate CrossesOut(j: Judgment) { j.Denied? && j.denial.errno == EXDEV }

  lemma RefusedFlags(flags: bv32)
    ensures CheckOpenFlags(flags).Some? ==> CheckOpenFlags(flags).value.errno == EPERM
  {
  }

  /** openat is openat2 at full size, with no resolve bits and the flags zero-extended; denials and their order included. */
  lemma OpenatIsOpenat2(dirfd: int, flags: bv32, mode: bv64, path: Bytes)
    ensures ClassifyOpenat(dirfd, flags, path) == ClassifyOpenat2(dirfd, OPEN_HOW_SIZE, OpenHow(Wide(flags), mode, 0), path)
  {
    WellFormedArguments(dirfd, flags, mode, path);
    OpenatIsJudge(dirfd, flags, path);
  }

  lemma WellFormedArguments(dirfd: int, flags: bv32, mode: bv64, path: Bytes)
    ensures ClassifyOpenat2(dirfd, OPEN_HOW_SIZE, OpenHow(Wide(flags), mode, 0), path) == Judge(dirfd, flags, 0, path)
  {
    ZeroExtension(flags);
  }

  lemma OpenatIsJudge(dirfd: int, flags: bv32, path: Bytes)
    ensures ClassifyOpenat(dirfd, flags, path) == Judge(dirfd, flags, 0, path)
  {
    NoCallerBits(flags, Absolute(path));
  }

  lemma NoCallerBits(flags: bv32, rooted: bool)
    ensures CallerRestrictions(0) | LinkRule(flags) == LinkRule(flags)
    ensures ResolveFlags(rooted, flags & O_NOFOLLOW != 0) == (if rooted then RESOLVE_IN_ROOT else RESOLVE_BENEATH) | LinkRule(flags)
  {
  }

  lemma ZeroExtension(flags: bv32)
    ensures Wide(flags) >> 32 == 0
    ensures LowHalf(Wide(flags)) == flags
  {
  }
}
