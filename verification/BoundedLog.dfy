/** The bounded, rotating log of scripts/ags-runtime.py:276-319. */
module BoundedLog {
  import opened Basics

  newtype Byte = x: int | 0 <= x < 256

  type Bytes = seq<Byte>

  /** 0 is runtime.log, i > 0 is runtime.log.i. */
  type Files = map<nat, Bytes>

  const MIN_SEGMENT := 65536
  const MAX_SEGMENT := 64 * 1024 * 1024
  const MAX_BACKUPS := 8

  predicate LimitsOk(maximum: int, backups: int) {
    MIN_SEGMENT <= maximum <= MAX_SEGMENT && 0 <= backups <= MAX_BACKUPS
  }

  // ---------------------------------------------------------------- rotation

  /** The turn of the rename loop for one index: the file below moves up, if there is one. */
  function MoveUp(files: Files, index: nat): Files
    requires index > 0
  {
    if index - 1 in files then (files - {index - 1})[index := files[index - 1]] else files
  }

  /** The turns of the loop for the indices from `index` down to just above `done`. */
  function MovePart(files: Files, index: nat, done: nat): Files
    requires done <= index
    decreases index
  {
    if index == done then files else MovePart(MoveUp(files, index), index - 1, done)
  }

  /** After rotation: without backups the current file is emptied, with backups a new one is created. */
  function Rotated(files: Files, backups: nat): Files {
    var moved := MovePart(files, backups, 0);
    if backups == 0 || 0 !in moved then moved[0 := []] else moved
  }

  /** The bytes of files index, index - 1, .. 0 that exist, oldest first. */
  function Contents(files: Files, index: nat): Bytes {
    (if index in files then files[index] else []) + if index == 0 then [] else Contents(files, index - 1)
  }

  predicate Suffix(a: Bytes, b: Bytes) {
    |a| <= |b| && a == b[|b| - |a|..]
  }

  lemma SuffixTransitive(a: Bytes, b: Bytes, c: Bytes)
    requires Suffix(a, b) && Suffix(b, c)
    ensures Suffix(a, c)
  {
    assert a == b[|b| - |a|..] == c[|c| - |b|..][|b| - |a|..] == c[|c| - |a|..];
  }

  lemma SuffixAppend(a: Bytes, b: Bytes, x: Bytes)
    requires Suffix(a, b)
    ensures Suffix(a + x, b + x)
  {
    assert (b + x)[|b + x| - |a + x|..] == b[|b| - |a|..] + x;
  }

  lemma {:induction false} ContentsFrame(files: Files, files': Files, index: nat)
    requires forall i: nat :: i <= index ==> (i in files <==> i in files') && (i in files ==> files[i] == files'[i])
    ensures Contents(files, index) == Contents(files', index)
  {
    if index > 0 { ContentsFrame(files, files', index - 1); }
  }

  /** What a rename to the top overwrites. */
  function Overwritten(files: Files, top: nat): Bytes {
    if top > 0 && top in files && top - 1 in files then files[top] else []
  }

  /** A rename onto a name that is free keeps everything. */
  lemma {:induction false} MoveUpKeeps(files: Files, index: nat, top: nat)
    requires 0 < index <= top && index !in files
    ensures Contents(MoveUp(files, index), top) == Contents(files, top) && index - 1 !in MoveUp(files, index)
  {
    var files' := MoveUp(files, index);
    if index < top {
      MoveUpKeeps(files, index, top - 1);
    } else if index - 1 in files {
      if index > 1 { ContentsFrame(files, files', index - 2); }
      var below := if index == 1 then [] else Contents(files, index - 2);
      assert Contents(files', index - 1) == [] + below == below;
      assert Contents(files, index) == [] + (files[index - 1] + below) == files[index - 1] + below;
    }
  }

  lemma {:induction false} RotationBelow(files: Files, index: nat, done: nat, top: nat)
    requires done <= index <= top && index !in files
    ensures Contents(MovePart(files, index, done), top) == Contents(files, top)
    decreases index
  {
    if done < index {
      MoveUpKeeps(files, index, top);
      RotationBelow(MoveUp(files, index), index - 1, done, top);
    }
  }

  /** A rename to the top loses exactly the file it overwrites. */
  lemma TopMoves(files: Files, top: nat)
    requires top > 0
    ensures Contents(files, top) == Overwritten(files, top) + Contents(MoveUp(files, top), top)
    ensures top - 1 !in MoveUp(files, top)
  {
    if top !in files {
      MoveUpKeeps(files, top, top);
      assert [] + Contents(files, top) == Contents(files, top);
    } else {
      var free := files - {top};
      MoveUpKeeps(free, top, top);
      ContentsFrame(files, free, top - 1);
      assert Contents(free, top) == [] + Contents(files, top - 1) == Contents(files, top - 1);
      if top - 1 in files { assert MoveUp(free, top) == MoveUp(files, top); } else { assert [] + Contents(files, top) == Contents(files, top); }
    }
  }

  /**
    However far a rotation got before a crash, it lost exactly the oldest file, and that only if it had
    moved another one onto it: the files still hold the rest, in order.
   */
  lemma RotationCutAnywhere(files: Files, done: nat, top: nat)
    requires done <= top
    ensures var lost := if done < top then Overwritten(files, top) else [];
      Contents(files, top) == lost + Contents(MovePart(files, top, done), top)
    ensures Suffix(Contents(MovePart(files, top, done), top), Contents(files, top))
  {
    var lost, kept := if done < top then Overwritten(files, top) else [], Contents(MovePart(files, top, done), top);
    if done < top {
      TopMoves(files, top);
      RotationBelow(MoveUp(files, top), top - 1, done, top);
    } else {
      assert [] + kept == kept;
    }
    assert (lost + kept)[|lost|..] == kept;
  }

  // ---------------------------------------------------------------- layout

  /** The files when q segments of the stream have been rotated away. */
  function Layout(stream: Bytes, maximum: nat, backups: nat, q: nat): (files: Files)
    requires q * maximum <= |stream| && maximum > 0
    ensures 0 in files && files[0] == stream[q * maximum..]
  {
    assert Piece(stream, maximum, q, 0) == stream[q * maximum..];
    map i: nat | 0 <= i <= Least(q, backups) :: Piece(stream, maximum, q, i)
  }

  function Piece(stream: Bytes, maximum: nat, q: nat, i: nat): Bytes
    requires q * maximum <= |stream| && maximum > 0 && i <= q
  {
    if i == 0 then stream[q * maximum..]
    else
      Products(q, i, maximum);
      stream[(q - i) * maximum..(q - i + 1) * maximum]
  }

  lemma Products(q: nat, i: nat, maximum: nat)
    requires 0 < i <= q
    ensures 0 <= (q - i) * maximum <= (q - i + 1) * maximum <= q * maximum
    ensures (q - i + 1) * maximum == (q - i) * maximum + maximum
  {
    assert (q - i + 1) * maximum == (q - i) * maximum + maximum;
    assert (q - i) * maximum >= 0;
    assert q * maximum == (q - i + 1) * maximum + (i - 1) * maximum;
  }

  /** Segments rotated away after n bytes; rotation waits for the next byte. */
  function Segments(n: nat, maximum: nat): nat
    requires maximum > 0
  {
    if n == 0 then 0 else (n - 1) / maximum
  }

  lemma MulMono(a: nat, b: nat, m: nat)
    requires a <= b
    ensures a * m <= b * m
  {
    assert b * m == a * m + (b - a) * m;
  }

  lemma DivUnique(n: nat, m: nat, q: nat, r: nat)
    requires m > 0 && n == q * m + r && r < m
    ensures n / m == q
  {
    var p := n / m;
    assert n == p * m + n % m;
    assert (p + 1) * m == p * m + m && (q + 1) * m == q * m + m;
    if p < q { MulMono(p + 1, q, m); }
    if q < p { MulMono(q + 1, p, m); }
  }

  lemma SegmentsExact(n: nat, maximum: nat, q: nat)
    requires maximum > 0 && q * maximum < n <= q * maximum + maximum
    ensures Segments(n, maximum) == q
  {
    DivUnique(n - 1, maximum, q, n - 1 - q * maximum);
  }

  // ---------------------------------------------------------------- rotation and appending on layouts

  /** The loop down to just above `done`: every file from there to below the top moves up by one. */
  lemma {:induction false} MovedAt(files: Files, index: nat, done: nat, j: nat)
    requires done < index
    ensures var moved := MovePart(files, index, done);
      && (j > index || j < done ==> (j in moved <==> j in files) && (j in files ==> moved[j] == files[j]))
      && (j == done ==> j !in moved)
      && (done < j < index ==> (j in moved <==> j - 1 in files) && (j in moved ==> moved[j] == files[j - 1]))
      && (j == index && index - 1 in files ==> j in moved && moved[j] == files[index - 1])
      && (j == index && index - 1 !in files ==> (j in moved <==> j in files) && (j in files ==> moved[j] == files[j]))
    decreases index
  {
    var next := MoveUp(files, index);
    if index > done + 1 { MovedAt(next, index - 1, done, j); }
  }

  lemma ShiftedPiece(stream: Bytes, maximum: nat, q: nat, i: nat)
    requires maximum > 0 && |stream| == (q + 1) * maximum && 0 < i <= q + 1
    ensures q * maximum <= |stream|
    ensures Piece(stream, maximum, q + 1, i) == Piece(stream, maximum, q, i - 1)
  {
    Products(q + 1, i, maximum);
    if i == 1 { assert stream[q * maximum..] == stream[q * maximum..(q + 1) * maximum]; }
  }

  /** Rotating a full current file gives exactly the layout with one more segment. */
  lemma RotatedLayout(stream: Bytes, maximum: nat, backups: nat, q: nat)
    requires maximum > 0 && |stream| == (q + 1) * maximum
    ensures q * maximum <= |stream|
    ensures Rotated(Layout(stream, maximum, backups, q), backups) == Layout(stream, maximum, backups, q + 1)
  {
    assert (q + 1) * maximum == q * maximum + maximum;
    var files, goal := Layout(stream, maximum, backups, q), Layout(stream, maximum, backups, q + 1);
    var rotated := Rotated(files, backups);
    forall j: nat ensures (j in rotated <==> j in goal) && (j in goal ==> rotated[j] == goal[j]) {
      if backups > 0 { MovedAt(files, backups, 0, j); MovedAt(files, backups, 0, 0); }
      if 0 < j <= q + 1 { ShiftedPiece(stream, maximum, q, j); }
    }
  }

  /** Appending to the current file is appending to the stream. */
  lemma AppendedLayout(stream: Bytes, chunk: Bytes, maximum: nat, backups: nat, q: nat)
    requires maximum > 0 && q * maximum <= |stream|
    ensures Layout(stream, maximum, backups, q)[0 := Layout(stream, maximum, backups, q)[0] + chunk]
         == Layout(stream + chunk, maximum, backups, q)
  {
    var files, goal := Layout(stream, maximum, backups, q), Layout(stream + chunk, maximum, backups, q);
    forall i: nat | i in goal ensures goal[i] == files[0 := files[0] + chunk][i] {
      if i > 0 {
        Products(q, i, maximum);
        assert (stream + chunk)[(q - i) * maximum..(q - i + 1) * maximum] == stream[(q - i) * maximum..(q - i + 1) * maximum];
      } else {
        assert (stream + chunk)[q * maximum..] == stream[q * maximum..] + chunk;
      }
    }
    assert files[0 := files[0] + chunk].Keys == goal.Keys;
  }

  // ---------------------------------------------------------------- retention

  /** Bytes still on disk after n bytes. */
  function Kept(n: nat, maximum: nat, backups: nat): nat
    requires maximum > 0
  {
    var q := Segments(n, maximum);
    n - q * maximum + Least(q, backups) * maximum
  }

  lemma SegmentsBound(n: nat, maximum: nat)
    requires maximum > 0
    ensures var q := Segments(n, maximum);
      && q * maximum <= n
      && (n > 0 ==> n - q * maximum == (n - 1) % maximum + 1 && 1 <= n - q * maximum <= maximum)
  {
    if n > 0 { assert n - 1 == (n - 1) / maximum * maximum + (n - 1) % maximum; }
  }

  lemma SplitAt(stream: Bytes, a: nat, b: nat)
    requires a <= b <= |stream|
    ensures stream[a..] == stream[a..b] + stream[b..]
  {
  }

  /** Where the i-th newest segment begins in the stream. */
  function Begin(q: nat, i: nat, maximum: nat): (begin: nat)
    requires i <= q
    ensures begin <= q * maximum
  {
    MulMono(q - i, q, maximum);
    (q - i) * maximum
  }

  lemma ContentsStep(files: Files, i: nat, stream: Bytes, a: nat, b: nat)
    requires i > 0 && i in files && a <= b <= |stream|
    requires files[i] == stream[a..b] && Contents(files, i - 1) == stream[b..]
    ensures Contents(files, i) == stream[a..]
  {
    SplitAt(stream, a, b);
  }

  lemma {:induction false} LayoutContents(stream: Bytes, maximum: nat, backups: nat, q: nat, i: nat)
    requires maximum > 0 && q * maximum <= |stream| && i <= Least(q, backups)
    ensures Contents(Layout(stream, maximum, backups, q), i) == stream[Begin(q, i, maximum)..]
  {
    var files := Layout(stream, maximum, backups, q);
    if i == 0 {
      assert files[0] + [] == files[0];
    } else {
      LayoutContents(stream, maximum, backups, q, i - 1);
      Products(q, i, maximum);
      ContentsStep(files, i, stream, Begin(q, i, maximum), Begin(q, i - 1, maximum));
    }
  }

  lemma {:induction false} EmptyAbove(files: Files, low: nat, top: nat)
    requires low <= top && forall i: nat :: low < i <= top ==> i !in files
    ensures Contents(files, top) == Contents(files, low)
  {
    if low < top { EmptyAbove(files, low, top - 1); }
  }

  /** The numbers behind the retention: what is kept, and its bounds. */
  lemma KeptBounds(n: nat, maximum: nat, backups: nat)
    requires maximum > 0 && n > 0
    ensures var q, kept := Segments(n, maximum), Kept(n, maximum, backups);
      && kept <= n && n - kept == (q - Least(q, backups)) * maximum
      && kept <= (backups + 1) * maximum
      && (kept == n || kept >= backups * maximum + 1)
  {
    var q, low := Segments(n, maximum), Least(Segments(n, maximum), backups);
    SegmentsBound(n, maximum);
    assert (q - low) * maximum == q * maximum - low * maximum;
    MulMono(low, backups, maximum);
    MulMono(low, q, maximum);
    assert (backups + 1) * maximum == backups * maximum + maximum;
  }

  lemma RotatedSizes(stream: Bytes, maximum: nat, backups: nat, q: nat)
    requires maximum > 0 && q * maximum <= |stream|
    ensures forall i <- Layout(stream, maximum, backups, q) ::
      i <= backups && (i > 0 ==> |Layout(stream, maximum, backups, q)[i]| == maximum)
  {
    forall i <- Layout(stream, maximum, backups, q) | i > 0
      ensures |Layout(stream, maximum, backups, q)[i]| == maximum
    {
      Products(q, i, maximum);
    }
  }

  lemma KeptContents(stream: Bytes, maximum: nat, backups: nat, q: nat)
    requires maximum > 0 && q * maximum <= |stream|
    ensures var gone := (q - Least(q, backups)) * maximum;
      0 <= gone <= |stream| && Contents(Layout(stream, maximum, backups, q), backups) == stream[gone..]
  {
    var low := Least(q, backups);
    LayoutContents(stream, maximum, backups, q, low);
    EmptyAbove(Layout(stream, maximum, backups, q), low, backups);
    MulMono(q - low, q, maximum);
  }

  /**
    After n > 0 bytes: the current file holds the last ((n - 1) mod maximum) + 1 of them, every
    segment is exactly `maximum` bytes, the files from oldest to newest are a suffix of the stream,
    and its length lies between min(n, backups * maximum + 1) and (backups + 1) * maximum.
   */
  lemma Retention(stream: Bytes, maximum: nat, backups: nat)
    requires maximum > 0 && stream != []
    ensures Segments(|stream|, maximum) * maximum <= |stream| && Kept(|stream|, maximum, backups) <= |stream|
    ensures var n, q := |stream|, Segments(|stream|, maximum);
      var files, kept := Layout(stream, maximum, backups, q), Kept(|stream|, maximum, backups);
      && |files[0]| == (n - 1) % maximum + 1 && files[0] == stream[n - |files[0]|..]
      && (forall i <- files :: i <= backups && (i > 0 ==> |files[i]| == maximum))
      && Contents(files, backups) == stream[n - kept..]
      && kept <= (backups + 1) * maximum
      && (kept == n || kept >= backups * maximum + 1)
  {
    var q := Segments(|stream|, maximum);
    SegmentsBound(|stream|, maximum);
    KeptBounds(|stream|, maximum, backups);
    RotatedSizes(stream, maximum, backups, q);
    KeptContents(stream, maximum, backups, q);
  }

  // ---------------------------------------------------------------- crashes inside a rotation

  predicate Bounded(files: Files, maximum: nat, backups: nat) {
    forall i <- files :: i <= backups && |files[i]| <= maximum
  }

  /** What a log with these limits leaves: no file too long or too old, oldest to newest the end of the stream. */
  predicate InOrder(files: Files, stream: Bytes, maximum: nat, backups: nat) {
    && Bounded(files, maximum, backups)
    && Suffix(Contents(files, backups), stream)
  }

  /** Opening creates the current file when it is missing. */
  function Opened(files: Files): Files {
    if 0 in files then files else files[0 := []]
  }

  /** A write call, a rotation, or a rotation that dies above index `done`, after which the log is opened again. */
  datatype Turn = Wrote(chunk: Bytes) | Rotates | Dies(done: nat)

  predicate Takes(files: Files, t: Turn, maximum: nat, backups: nat) {
    0 in files &&
    match t
    case Wrote(chunk) => chunk != [] && |files[0]| + |chunk| <= maximum
    case Rotates => |files[0]| >= maximum
    case Dies(done) => |files[0]| >= maximum && done <= backups
  }

  function Turned(files: Files, t: Turn, maximum: nat, backups: nat): Files {
    if !Takes(files, t, maximum, backups) then files else
      match t
      case Wrote(chunk) => files[0 := files[0] + chunk]
      case Rotates => Rotated(files, backups)
      case Dies(done) => Opened(MovePart(files, backups, done))
  }

  function Streamed(files: Files, stream: Bytes, t: Turn, maximum: nat, backups: nat): Bytes {
    if Takes(files, t, maximum, backups) && t.Wrote? then stream + t.chunk else stream
  }

  lemma {:induction false} ContentsAppend(files: Files, chunk: Bytes, index: nat)
    requires 0 in files
    ensures Contents(files[0 := files[0] + chunk], index) == Contents(files, index) + chunk
  {
    var files' := files[0 := files[0] + chunk];
    if index == 0 {
      assert files'[0] + [] == files'[0] && files[0] + [] == files[0];
    } else {
      ContentsAppend(files, chunk, index - 1);
      var head := if index in files then files[index] else [];
      assert head + (Contents(files, index - 1) + chunk) == (head + Contents(files, index - 1)) + chunk;
    }
  }

  lemma {:induction false} ContentsCreate(files: Files, index: nat)
    requires 0 !in files
    ensures Contents(files[0 := []], index) == Contents(files, index)
  {
    if index > 0 { ContentsCreate(files, index - 1); }
  }

  lemma {:induction false} ContentsTruncated(files: Files, index: nat)
    requires forall i <- files :: i == 0
    ensures Contents(files[0 := []], index) == []
  {
    if index > 0 { ContentsTruncated(files, index - 1); }
  }

  lemma {:induction false} MovePartBounded(files: Files, index: nat, done: nat, maximum: nat, backups: nat)
    requires Bounded(files, maximum, backups) && done <= index <= backups
    ensures Bounded(MovePart(files, index, done), maximum, backups)
    decreases index
  {
    if done < index { MovePartBounded(MoveUp(files, index), index - 1, done, maximum, backups); }
  }

  /** Moving segments up, as far as it gets, and opening the log again keeps the order. */
  lemma DeathInOrder(files: Files, stream: Bytes, done: nat, maximum: nat, backups: nat)
    requires InOrder(files, stream, maximum, backups) && done <= backups
    ensures InOrder(Opened(MovePart(files, backups, done)), stream, maximum, backups)
  {
    var moved := MovePart(files, backups, done);
    MovePartBounded(files, backups, done, maximum, backups);
    RotationCutAnywhere(files, done, backups);
    SuffixTransitive(Contents(moved, backups), Contents(files, backups), stream);
    if 0 !in moved { ContentsCreate(moved, backups); }
  }

  lemma RotationInOrder(files: Files, stream: Bytes, maximum: nat, backups: nat)
    requires InOrder(files, stream, maximum, backups)
    ensures InOrder(Rotated(files, backups), stream, maximum, backups)
  {
    if backups == 0 {
      ContentsTruncated(files, 0);
      assert stream[|stream|..] == [];
    } else {
      DeathInOrder(files, stream, 0, maximum, backups);
    }
  }

  lemma TurnInOrder(files: Files, stream: Bytes, t: Turn, maximum: nat, backups: nat)
    requires InOrder(files, stream, maximum, backups)
    ensures InOrder(Turned(files, t, maximum, backups), Streamed(files, stream, t, maximum, backups), maximum, backups)
  {
    if Takes(files, t, maximum, backups) {
      match t
      case Wrote(chunk) =>
        ContentsAppend(files, chunk, backups);
        SuffixAppend(Contents(files, backups), stream, chunk);
      case Rotates => RotationInOrder(files, stream, maximum, backups);
      case Dies(done) => DeathInOrder(files, stream, done, maximum, backups);
    }
  }

  function TurnedAll(files: Files, turns: seq<Turn>, maximum: nat, backups: nat): Files
    decreases |turns|
  {
    if turns == [] then files else TurnedAll(Turned(files, turns[0], maximum, backups), turns[1..], maximum, backups)
  }

  function StreamedAll(files: Files, stream: Bytes, turns: seq<Turn>, maximum: nat, backups: nat): Bytes
    decreases |turns|
  {
    if turns == [] then stream else
      StreamedAll(Turned(files, turns[0], maximum, backups), Streamed(files, stream, turns[0], maximum, backups), turns[1..], maximum, backups)
  }

  /**
    Over any mix of short writes, rotations, and rotations cut off anywhere and opened again, the
    files from oldest to newest are the end of everything written, none longer than `maximum`.
   */
  lemma {:induction false} CrashesKeepOrder(files: Files, stream: Bytes, turns: seq<Turn>, maximum: nat, backups: nat)
    requires InOrder(files, stream, maximum, backups)
    ensures InOrder(TurnedAll(files, turns, maximum, backups), StreamedAll(files, stream, turns, maximum, backups), maximum, backups)
    decreases |turns|
  {
    if turns != [] {
      TurnInOrder(files, stream, turns[0], maximum, backups);
      CrashesKeepOrder(Turned(files, turns[0], maximum, backups), Streamed(files, stream, turns[0], maximum, backups), turns[1..], maximum, backups);
    }
  }

  // ---------------------------------------------------------------- how much is kept after deaths

  /** How many of the names below j, above the current file, are free. */
  function Absent(files: Files, j: nat): (n: nat)
    ensures n <= j
  {
    if j <= 1 then 0 else Absent(files, j - 1) + if j - 1 in files then 0 else 1
  }

  /** Below each file at most k names are free; every file but the current one is full. */
  predicate Holes(files: Files, k: nat) {
    forall j: nat {:trigger Absent(files, j)} :: j in files ==> Absent(files, j) <= k
  }

  predicate Full(files: Files, maximum: nat) {
    forall j <- files :: j > 0 ==> |files[j]| == maximum
  }

  /** A death leaves a hole where it stopped, unless the loop was through. */
  function HoleOf(done: nat): nat {
    if done == 0 then 0 else 1
  }

  lemma {:induction false} AbsentMoves(files: Files, index: nat, done: nat, j: nat)
    requires done < index && j <= index && (done == 0 ==> 0 in files)
    ensures Absent(MovePart(files, index, done), j) == if j <= done then Absent(files, j) else Absent(files, j - 1) + HoleOf(done)
    decreases j
  {
    if j > 1 {
      AbsentMoves(files, index, done, j - 1);
      MovedAt(files, index, done, j - 1);
    }
  }

  /** A file that moved up has the names below it shifted with it, and perhaps the hole. */
  lemma MovedHole(files: Files, top: nat, done: nat, k: nat, j: nat)
    requires done < j <= top && 0 in files && j - 1 in files && Absent(files, j - 1) <= k
    ensures Absent(MovePart(files, top, done), j) <= k + HoleOf(done)
  {
    AbsentMoves(files, top, done, j);
  }

  /** The oldest file stays when none is moved onto it, and then the free name below it is gone or moved. */
  lemma StayedHole(files: Files, top: nat, done: nat, k: nat)
    requires done < top && 0 in files && top - 1 !in files && Absent(files, top) <= k
    ensures Absent(MovePart(files, top, done), top) <= k + HoleOf(done)
  {
    AbsentMoves(files, top, done, top);
    assert Absent(files, top) == Absent(files, top - 1) + 1;
  }

  lemma HoleAt(files: Files, top: nat, done: nat, k: nat, j: nat)
    requires done < top && 0 in files && Holes(files, k) && j <= top && j in MovePart(files, top, done)
    ensures Absent(MovePart(files, top, done), j) <= k + HoleOf(done)
  {
    MovedAt(files, top, done, j);
    if j < done {
      AbsentMoves(files, top, done, j);
    } else if j - 1 in files {
      assert Absent(files, j - 1) <= k;
      MovedHole(files, top, done, k, j);
    } else {
      assert Absent(files, top) <= k;
      StayedHole(files, top, done, k);
    }
  }

  lemma HolesMove(files: Files, top: nat, done: nat, k: nat)
    requires done < top && 0 in files && Holes(files, k) && forall j <- files :: j <= top
    ensures Holes(MovePart(files, top, done), k + HoleOf(done))
  {
    forall j <- MovePart(files, top, done) ensures Absent(MovePart(files, top, done), j) <= k + HoleOf(done) {
      MovedAt(files, top, done, j);
      HoleAt(files, top, done, k, j);
    }
  }

  lemma FullMoves(files: Files, top: nat, done: nat, maximum: nat)
    requires done < top && 0 in files && Full(files, maximum) && (done == 0 ==> |files[0]| == maximum)
    ensures Full(MovePart(files, top, done), maximum)
  {
    forall j <- MovePart(files, top, done) ensures j > 0 ==> |MovePart(files, top, done)[j]| == maximum {
      MovedAt(files, top, done, j);
      if j == 0 { MovedAt(files, top, done, 0); }
    }
  }

  /** A rotation that gets down to `done` frees one name less if it overwrote nothing, and one more if it left a hole. */
  lemma FreeAfter(files: Files, top: nat, done: nat)
    requires done < top && 0 in files
    ensures Absent(MovePart(files, top, done), top + 1) + (if top in files && top - 1 in files then 0 else 1)
         == Absent(files, top + 1) + HoleOf(done)
  {
    MovedAt(files, top, done, top);
    AbsentMoves(files, top, done, top);
  }

  /** q segments are done with, k deaths left holes, and at least so many of the names are taken. */
  predicate KeptUp(files: Files, q: nat, k: nat, maximum: nat, backups: nat) {
    && 0 in files && Bounded(files, maximum, backups) && Full(files, maximum) && Holes(files, k)
    && Absent(files, backups + 1) + Least(q, backups) <= backups + k
  }

  function HolesBy(files: Files, t: Turn, maximum: nat, backups: nat): nat {
    if Takes(files, t, maximum, backups) && t.Dies? then HoleOf(t.done) else 0
  }

  /** Whether the turn ends the current segment: a rotation, or a death when the loop was through. */
  predicate EndsSegment(files: Files, t: Turn, maximum: nat, backups: nat) {
    Takes(files, t, maximum, backups) && (t.Rotates? || (t.Dies? && t.done == 0 && backups > 0))
  }

  lemma DeathKeepsUp(files: Files, done: nat, q: nat, k: nat, maximum: nat, backups: nat)
    requires KeptUp(files, q, k, maximum, backups) && |files[0]| == maximum && done < backups
    ensures var after := Opened(MovePart(files, backups, done));
      KeptUp(after, if done == 0 then q + 1 else q, k + HoleOf(done), maximum, backups)
      && after[0] == if done == 0 then [] else files[0]
  {
    var moved := MovePart(files, backups, done);
    HolesMove(files, backups, done, k);
    FullMoves(files, backups, done, maximum);
    FreeAfter(files, backups, done);
    MovePartBounded(files, backups, done, maximum, backups);
    MovedAt(files, backups, done, 0);
    OpenedKeeps(moved, k + HoleOf(done), maximum, backups);
    if backups in files { assert Absent(files, backups) <= k; }
  }

  lemma {:induction false} OpenedAbsent(files: Files, j: nat)
    ensures Absent(Opened(files), j) == Absent(files, j)
  {
    if j > 1 { OpenedAbsent(files, j - 1); }
  }

  lemma OpenedKeeps(files: Files, k: nat, maximum: nat, backups: nat)
    requires Bounded(files, maximum, backups) && Full(files, maximum) && Holes(files, k)
    ensures var after := Opened(files);
      Bounded(after, maximum, backups) && Full(after, maximum) && Holes(after, k)
      && Absent(after, backups + 1) == Absent(files, backups + 1)
  {
    OpenedAbsent(files, backups + 1);
    forall j <- Opened(files) ensures Absent(Opened(files), j) <= k { OpenedAbsent(files, j); }
  }

  /** A write call leaves the names as they are. */
  lemma WriteKeepsUp(files: Files, chunk: Bytes, q: nat, k: nat, maximum: nat, backups: nat)
    requires KeptUp(files, q, k, maximum, backups) && |files[0]| + |chunk| <= maximum
    ensures KeptUp(files[0 := files[0] + chunk], q, k, maximum, backups)
  {
    var after := files[0 := files[0] + chunk];
    WriteAbsent(files, chunk, backups + 1);
    forall j <- after ensures Absent(after, j) <= k { WriteAbsent(files, chunk, j); }
  }

  lemma {:induction false} WriteAbsent(files: Files, chunk: Bytes, j: nat)
    requires 0 in files
    ensures Absent(files[0 := files[0] + chunk], j) == Absent(files, j)
  {
    if j > 1 { WriteAbsent(files, chunk, j - 1); }
  }

  lemma TurnKeepsUp(files: Files, t: Turn, q: nat, k: nat, maximum: nat, backups: nat)
    requires KeptUp(files, q, k, maximum, backups)
    ensures KeptUp(Turned(files, t, maximum, backups), if EndsSegment(files, t, maximum, backups) then q + 1 else q,
                   k + HolesBy(files, t, maximum, backups), maximum, backups)
  {
    if Takes(files, t, maximum, backups) {
      match t
      case Wrote(chunk) => WriteKeepsUp(files, chunk, q, k, maximum, backups);
      case Rotates => if backups > 0 { DeathKeepsUp(files, 0, q, k, maximum, backups); }
      case Dies(done) =>
        if done < backups { DeathKeepsUp(files, done, q, k, maximum, backups); }
    }
  }

  function HolesAll(files: Files, turns: seq<Turn>, maximum: nat, backups: nat): nat
    decreases |turns|
  {
    if turns == [] then 0
    else HolesBy(files, turns[0], maximum, backups) + HolesAll(Turned(files, turns[0], maximum, backups), turns[1..], maximum, backups)
  }

  lemma TurnCounts(files: Files, stream: Bytes, t: Turn, q: nat, maximum: nat, backups: nat)
    requires 0 in files && Bounded(files, maximum, backups) && |stream| == q * maximum + |files[0]|
    ensures var q', after := if EndsSegment(files, t, maximum, backups) then q + 1 else q, Turned(files, t, maximum, backups);
      0 in after && |Streamed(files, stream, t, maximum, backups)| == q' * maximum + |after[0]|
  {
    assert (q + 1) * maximum == q * maximum + maximum;
    if backups > 0 {
      MovedAt(files, backups, 0, 0);
      if t.Dies? && 0 < t.done < backups { MovedAt(files, backups, t.done, 0); }
    }
  }

  lemma {:induction false} KeepsUpAll(files: Files, stream: Bytes, turns: seq<Turn>, q: nat, k: nat, maximum: nat, backups: nat)
    returns (q': nat)
    requires KeptUp(files, q, k, maximum, backups) && |stream| == q * maximum + |files[0]|
    ensures var after := TurnedAll(files, turns, maximum, backups);
      && KeptUp(after, q', k + HolesAll(files, turns, maximum, backups), maximum, backups)
      && |StreamedAll(files, stream, turns, maximum, backups)| == q' * maximum + |after[0]|
    decreases |turns|
  {
    if turns == [] {
      q' := q;
    } else {
      var t := turns[0];
      TurnKeepsUp(files, t, q, k, maximum, backups);
      TurnCounts(files, stream, t, q, maximum, backups);
      q' := KeepsUpAll(Turned(files, t, maximum, backups), Streamed(files, stream, t, maximum, backups), turns[1..],
                       if EndsSegment(files, t, maximum, backups) then q + 1 else q,
                       k + HolesBy(files, t, maximum, backups), maximum, backups);
    }
  }

  lemma {:induction false} ContentsLength(files: Files, j: nat, maximum: nat)
    requires 0 in files && Full(files, maximum)
    ensures |Contents(files, j)| == |files[0]| + (j - Absent(files, j + 1)) * maximum
  {
    if j == 0 {
      assert Contents(files, 0) == files[0] + [] == files[0];
    } else {
      ContentsLength(files, j - 1, maximum);
      var taken := j - 1 - Absent(files, j);
      assert (taken + 1) * maximum == taken * maximum + maximum;
    }
  }

  /**
    A log opened on an empty directory, after any writes, rotations and deaths: the files are the end
    of the stream, and of the q full segments before the current one as many are on disk as without
    deaths, less at most one for each death in the middle of a rotation.
   */
  lemma KeptAfterDeaths(turns: seq<Turn>, maximum: nat, backups: nat) returns (q: nat)
    ensures var (files, stream) := (TurnedAll(Opened(map[]), turns, maximum, backups), StreamedAll(Opened(map[]), [], turns, maximum, backups));
      var deaths := HolesAll(Opened(map[]), turns, maximum, backups);
      && InOrder(files, stream, maximum, backups)
      && 0 in files && |stream| == q * maximum + |files[0]|
      && |Contents(files, backups)| + deaths * maximum >= |files[0]| + Least(q, backups) * maximum
  {
    var start := Opened(map[]);
    FreshLog(maximum, backups);
    CrashesKeepOrder(start, [], turns, maximum, backups);
    q := KeepsUpAll(start, [], turns, 0, 0, maximum, backups);
    BytesKept(TurnedAll(start, turns, maximum, backups), q, HolesAll(start, turns, maximum, backups), maximum, backups);
  }

  lemma FreshLog(maximum: nat, backups: nat)
    ensures KeptUp(Opened(map[]), 0, 0, maximum, backups) && InOrder(Opened(map[]), [], maximum, backups)
  {
    var start := Opened(map[]);
    assert forall j <- start :: j == 0 && start[j] == [];
    AbsentBound(start, backups + 1);
    assert Least(0, backups) == 0;
    FreshContents(backups);
  }

  lemma FreshContents(backups: nat)
    ensures Contents(Opened(map[]), backups) == []
  {
    ContentsTruncated(map[], backups);
  }

  lemma BytesKept(files: Files, q: nat, k: nat, maximum: nat, backups: nat)
    requires KeptUp(files, q, k, maximum, backups)
    ensures |Contents(files, backups)| + k * maximum >= |files[0]| + Least(q, backups) * maximum
  {
    ContentsLength(files, backups, maximum);
    var free := Absent(files, backups + 1);
    AbsentBound(files, backups + 1);
    var taken: nat := backups - free;
    MulMono(Least(q, backups), taken + k, maximum);
    assert (taken + k) * maximum == taken * maximum + k * maximum;
  }

  lemma {:induction false} AbsentBound(files: Files, j: nat)
    ensures Absent(files, j) <= if j <= 1 then 0 else j - 1
  {
    if j > 1 { AbsentBound(files, j - 1); }
  }

  // ---------------------------------------------------------------- layouts turn by turn

  /** The files are the whole layout, as a log leaves them in which no rotation was ever cut. */
  predicate LaidOut(files: Files, stream: Bytes, q: nat, maximum: nat, backups: nat) {
    maximum > 0 && q * maximum <= |stream| <= q * maximum + maximum && files == Layout(stream, maximum, backups, q)
  }

  predicate Alive(turns: seq<Turn>) {
    forall t <- turns :: !t.Dies?
  }

  lemma TurnLaidOut(files: Files, stream: Bytes, q: nat, t: Turn, maximum: nat, backups: nat)
    requires LaidOut(files, stream, q, maximum, backups) && !t.Dies?
    ensures LaidOut(Turned(files, t, maximum, backups), Streamed(files, stream, t, maximum, backups),
                    if EndsSegment(files, t, maximum, backups) then q + 1 else q, maximum, backups)
  {
    assert (q + 1) * maximum == q * maximum + maximum;
    if Takes(files, t, maximum, backups) {
      if t.Wrote? { AppendedLayout(stream, t.chunk, maximum, backups, q); } else { RotatedLayout(stream, maximum, backups, q); }
    }
  }

  lemma {:induction false} TurnsLaidOut(files: Files, stream: Bytes, q: nat, turns: seq<Turn>, maximum: nat, backups: nat)
    returns (q': nat)
    requires LaidOut(files, stream, q, maximum, backups) && Alive(turns)
    ensures LaidOut(TurnedAll(files, turns, maximum, backups), StreamedAll(files, stream, turns, maximum, backups), q', maximum, backups)
    decreases |turns|
  {
    if turns == [] {
      q' := q;
    } else {
      assert turns[0] in turns;
      TurnLaidOut(files, stream, q, turns[0], maximum, backups);
      var next := if EndsSegment(files, turns[0], maximum, backups) then q + 1 else q;
      q' := TurnsLaidOut(Turned(files, turns[0], maximum, backups), Streamed(files, stream, turns[0], maximum, backups),
                         next, turns[1..], maximum, backups);
    }
  }

  lemma {:induction false} TurnsJoin(files: Files, stream: Bytes, a: seq<Turn>, b: seq<Turn>, maximum: nat, backups: nat)
    ensures TurnedAll(files, a + b, maximum, backups) == TurnedAll(TurnedAll(files, a, maximum, backups), b, maximum, backups)
    ensures StreamedAll(files, stream, a + b, maximum, backups)
         == StreamedAll(TurnedAll(files, a, maximum, backups), StreamedAll(files, stream, a, maximum, backups), b, maximum, backups)
    decreases |a|
  {
    if a == [] {
      assert a + b == b;
    } else {
      assert (a + b)[0] == a[0] && (a + b)[1..] == a[1..] + b;
      TurnsJoin(Turned(files, a[0], maximum, backups), Streamed(files, stream, a[0], maximum, backups), a[1..], b, maximum, backups);
    }
  }

  lemma OneTurn(files: Files, stream: Bytes, t: Turn, maximum: nat, backups: nat)
    ensures TurnedAll(files, [t], maximum, backups) == Turned(files, t, maximum, backups)
    ensures StreamedAll(files, stream, [t], maximum, backups) == Streamed(files, stream, t, maximum, backups)
  {
    assert [t][1..] == [];
  }

  lemma Joined(start: Bytes, data: Bytes, done: nat, count: nat)
    requires done + count <= |data|
    ensures start + data[..done] + data[done..][..count] == start + data[..done + count]
  {
    assert data[..done] + data[done..][..count] == data[..done + count];
  }

  // ---------------------------------------------------------------- the log

  class LogDirectory {
    var files: Files

    constructor ()
      ensures files == map[]
    {
      files := map[];
    }
  }

  class Log {
    const dir: LogDirectory
    const maximum: nat
    const backups: nat
    var size: nat
    /** Everything written so far. */
    ghost var stream: Bytes

    ghost predicate Valid()
      reads this, dir
    {
      && LimitsOk(maximum, backups)
      && 0 in dir.files && size == |dir.files[0]|
      && InOrder(dir.files, stream, maximum, backups)
    }

    /** The files and the stream are those that these turns give. */
    ghost predicate After(files: Files, written: Bytes, turns: seq<Turn>)
      reads this, dir
    {
      && dir.files == TurnedAll(files, turns, maximum, backups)
      && stream == StreamedAll(files, written, turns, maximum, backups)
    }

    /** Opens any directory that a log with the same limits can leave, an empty one and one left by a death included. */
    constructor (dir: LogDirectory, maximum: nat, backups: nat, ghost stream: Bytes)
      requires LimitsOk(maximum, backups) && InOrder(dir.files, stream, maximum, backups)
      modifies dir
      ensures Valid() && this.dir == dir && this.maximum == maximum && this.backups == backups
      ensures this.stream == stream && dir.files == Opened(old(dir.files))
    {
      this.dir, this.maximum, this.backups, this.stream := dir, maximum, backups, stream;
      new;
      if 0 !in dir.files { ContentsCreate(dir.files, backups); }
      Open();
    }

    /** Creates the current file when it is missing and takes its length. */
    method Open()
      modifies this`size, dir
      ensures dir.files == Opened(old(dir.files)) && size == |dir.files[0]|
    {
      if 0 !in dir.files { dir.files := dir.files[0 := []]; }
      size := |dir.files[0]|;
    }

    method Rotate()
      modifies this`size, dir
      ensures dir.files == Rotated(old(dir.files), backups) && size == |dir.files[0]|
    {
      var index := backups;
      while index > 0
        invariant 0 <= index <= backups
        invariant MovePart(dir.files, index, 0) == MovePart(old(dir.files), backups, 0)
      {
        if index - 1 in dir.files {
          dir.files := (dir.files - {index - 1})[index := dir.files[index - 1]];
        }
        index := index - 1;
      }
      if backups == 0 { dir.files := dir.files[0 := []]; }
      Open();
    }

    /**
      However the data is split into turns, and whatever the system takes at each write, no byte is
      lost on the way; and from a whole layout the files go to the layout of the longer stream.
     */
    method WriteBytes(data: Bytes) returns (ghost turns: seq<Turn>)
      requires Valid()
      modifies this`size, this`stream, dir
      ensures Valid() && stream == old(stream) + data
      ensures After(old(dir.files), old(stream), turns) && Alive(turns)
      ensures data == [] ==> dir.files == old(dir.files)
      ensures data != [] ==> forall q :: LaidOut(old(dir.files), old(stream), q, maximum, backups) ==>
        LaidOut(dir.files, stream, Segments(|stream|, maximum), maximum, backups)
    {
      var done := 0;
      turns := [];
      while done < |data|
        invariant done <= |data|
        invariant Valid() && stream == old(stream) + data[..done]
        invariant After(old(dir.files), old(stream), turns) && Alive(turns)
        invariant done == 0 ==> dir.files == old(dir.files)
        invariant done > 0 ==> size > 0
      {
        ghost var files, written := dir.files, stream;
        var count, more := WriteSome(data[done..]);
        Joined(old(stream), data, done, count);
        TurnsJoin(old(dir.files), old(stream), turns, more, maximum, backups);
        done, turns := done + count, turns + more;
      }
      assert data[..|data|] == data;
      forall q | data != [] && LaidOut(old(dir.files), old(stream), q, maximum, backups)
        ensures LaidOut(dir.files, stream, Segments(|stream|, maximum), maximum, backups)
      {
        var q' := TurnsLaidOut(old(dir.files), old(stream), q, turns, maximum, backups);
        SegmentsExact(|stream|, maximum, q');
      }
    }

    /** One turn of the loop. */
    method WriteSome(rest: Bytes) returns (count: nat, ghost turns: seq<Turn>)
      requires Valid() && rest != []
      modifies this`size, this`stream, dir
      ensures 1 <= count <= |rest| && Valid() && stream == old(stream) + rest[..count] && size > 0
      ensures After(old(dir.files), old(stream), turns) && Alive(turns)
    {
      turns := [];
      if size >= maximum {
        RotateFull();
        turns := [Rotates];
        OneTurn(old(dir.files), old(stream), Rotates, maximum, backups);
      }
      ghost var files := dir.files;
      var room := maximum - size;
      count := WriteChunk(if |rest| < room then rest else rest[..room]);
      assert |rest| >= room ==> rest[..room][..count] == rest[..count];
      TurnsJoin(old(dir.files), old(stream), turns, [Wrote(rest[..count])], maximum, backups);
      OneTurn(files, old(stream), Wrote(rest[..count]), maximum, backups);
      turns := turns + [Wrote(rest[..count])];
    }

    /** The rotation of a full log leaves an empty current file. */
    method RotateFull()
      requires Valid() && size >= maximum
      modifies this`size, dir
      ensures Valid() && dir.files == Turned(old(dir.files), Rotates, maximum, backups) && size == 0
    {
      RotationInOrder(dir.files, stream, maximum, backups);
      if backups > 0 { MovedAt(dir.files, backups, 0, 0); }
      Rotate();
    }

    /** One write call of the system: it may take any non-empty prefix of the chunk. */
    method WriteChunk(chunk: Bytes) returns (count: nat)
      requires Valid() && 1 <= |chunk| <= maximum - size
      modifies this`size, this`stream, dir
      ensures 1 <= count <= |chunk| && Valid() && stream == old(stream) + chunk[..count] && size > 0
      ensures dir.files == Turned(old(dir.files), Wrote(chunk[..count]), maximum, backups)
    {
      count :| 1 <= count <= |chunk|;
      TurnInOrder(dir.files, stream, Wrote(chunk[..count]), maximum, backups);
      dir.files := dir.files[0 := dir.files[0] + chunk[..count]];
      size := size + count;
      stream := stream + chunk[..count];
    }
  }
}
