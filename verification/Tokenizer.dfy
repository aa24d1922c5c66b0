/** The greedy longest-match tokenizer of modules/news-pipeline/src/finbert.cpp and its attention mask. */
module Tokenizer {

  const PIECE_LIMIT: nat := 16

  /** The loaded vocabulary: ids_ and the four special ids. */
  datatype Vocab = Vocab(ids: map<string, nat>, cls: nat, sep: nat, pad: nat, unk: nat)

  /** One emitted id and the bytes [start, end) it stands for. */
  datatype Token = Token(start: nat, end: nat, id: nat)

  // ----- Loading -----

  /** Line numbers as ids; a repeated line keeps its last number. */
  function Numbered(lines: seq<string>): map<string, nat> {
    if lines == [] then map[]
    else Numbered(lines[..|lines| - 1])[lines[|lines| - 1] := |lines| - 1]
  }

  function Special(ids: map<string, nat>, name: string): nat {
    if name in ids then ids[name] else 0
  }

  function Loaded(lines: seq<string>): Vocab {
    var ids := Numbered(lines);
    Vocab(ids, Special(ids, "[CLS]"), Special(ids, "[SEP]"), Special(ids, "[PAD]"), Special(ids, "[UNK]"))
  }

  /** The file inverts the numbering: line ids[piece] is the piece, and no later line is. */
  lemma {:induction false} LinesInvertIds(lines: seq<string>, piece: string)
    ensures piece in Numbered(lines) <==> piece in lines
    ensures piece in Numbered(lines) ==>
              (var id := Numbered(lines)[piece];
               id < |lines| && lines[id] == piece && forall j | id < j < |lines| :: lines[j] != piece)
  {
    if lines != [] {
      LinesInvertIds(lines[..|lines| - 1], piece);
      assert lines == lines[..|lines| - 1] + [lines[|lines| - 1]];
    }
  }

  // ----- Greedy segmentation -----

  predicate White(c: char) {
    c == ' ' || c == '\n' || c == '\t'
  }

  function SkipWhite(text: string, i: nat): (r: nat)
    requires i <= |text|
    ensures i <= r <= |text| && Gap(text, i, r)
    ensures r < |text| ==> !White(text[r])
    decreases |text| - i
  {
    if i < |text| && White(text[i]) then SkipWhite(text, i + 1) else i
  }

  predicate Gap(text: string, a: nat, b: nat) {
    a <= b <= |text| && forall k | a <= k < b :: White(text[k])
  }

  /** The furthest end of a piece looked up at `i`. */
  function Limit(text: string, i: nat): nat {
    if i + PIECE_LIMIT <= |text| then i + PIECE_LIMIT else |text|
  }

  /** End of the longest vocabulary piece at `i` ending at or before `end`; `i` when there is none. */
  function LongestEnd(ids: map<string, nat>, text: string, i: nat, end: nat): (r: nat)
    requires i <= end <= |text|
    ensures i <= r <= end
    ensures i < r ==> text[i..r] in ids
    ensures forall e | r < e <= end :: text[i..e] !in ids
  {
    if end == i then i
    else if text[i..end] in ids then end
    else LongestEnd(ids, text, i, end - 1)
  }

  function NextToken(v: Vocab, text: string, i: nat): (t: Token)
    requires i < |text|
    ensures t.start == i < t.end <= |text|
  {
    var end := LongestEnd(v.ids, text, i, Limit(text, i));
    if end == i then Token(i, i + 1, v.unk) else Token(i, end, v.ids[text[i..end]])
  }

  /** At most `n` tokens from `i` on. */
  function Tokens(v: Vocab, text: string, i: nat, n: nat): (ts: seq<Token>)
    requires i <= |text|
    ensures |ts| <= n
    decreases n
  {
    var j := SkipWhite(text, i);
    if n == 0 || j == |text| then []
    else
      var t := NextToken(v, text, j);
      [t] + Tokens(v, text, t.end, n - 1)
  }

  function Ids(ts: seq<Token>): (ids: seq<nat>)
    ensures |ids| == |ts| && forall k | 0 <= k < |ts| :: ids[k] == ts[k].id
  {
    seq(|ts|, k requires 0 <= k < |ts| => ts[k].id)
  }

  /** Room left between CLS and SEP. */
  function Room(maxLen: int): nat {
    if maxLen >= 2 then maxLen - 2 else 0
  }

  function Repeated(x: nat, n: nat): (r: seq<nat>)
    ensures |r| == n && forall k | 0 <= k < n :: r[k] == x
  {
    seq(n, k => x)
  }

  /** CLS, the tokens, SEP, then pads up to the length asked for. */
  function Encoded(v: Vocab, text: string, maxLen: int): seq<nat> {
    var body := [v.cls] + Ids(Tokens(v, text, 0, Room(maxLen))) + [v.sep];
    body + Repeated(v.pad, if |body| < maxLen then maxLen - |body| else 0)
  }

  class Tokenizer {
    var ids: map<string, nat>
    var cls: nat
    var sep: nat
    var pad: nat
    var unk: nat

    function Vocabulary(): Vocab
      reads this
    {
      Vocab(ids, cls, sep, pad, unk)
    }

    constructor (lines: seq<string>)
      ensures Vocabulary() == Loaded(lines)
    {
      var numbered: map<string, nat> := map[];
      var id := 0;
      while id < |lines|
        invariant id <= |lines| && numbered == Numbered(lines[..id])
      {
        numbered := numbered[lines[id] := id];
        assert lines[..id + 1][..id] == lines[..id];
        id := id + 1;
      }
      assert lines[..id] == lines;
      ids := numbered;
      cls, sep, pad, unk := 0, 0, 0, 0;
      if "[CLS]" in numbered {
        cls := numbered["[CLS]"];
      }
      if "[SEP]" in numbered {
        sep := numbered["[SEP]"];
      }
      if "[PAD]" in numbered {
        pad := numbered["[PAD]"];
      }
      if "[UNK]" in numbered {
        unk := numbered["[UNK]"];
      }
    }

    /** The inner loop: the longest piece first, then shorter ones. */
    method Match(text: string, i: nat) returns (t: Token)
      requires i < |text|
      ensures t == NextToken(Vocabulary(), text, i)
    {
      var end := if i + PIECE_LIMIT <= |text| then i + PIECE_LIMIT else |text|;
      while end > i
        invariant i <= end <= |text|
        invariant LongestEnd(ids, text, i, end) == LongestEnd(ids, text, i, Limit(text, i))
      {
        if text[i..end] in ids {
          return Token(i, end, ids[text[i..end]]);
        }
        end := end - 1;
      }
      t := Token(i, i + 1, unk);
    }

    /** The whitespace loop. */
    method Skip(text: string, i: nat) returns (j: nat)
      requires i <= |text|
      ensures j == SkipWhite(text, i)
    {
      j := i;
      while j < |text| && (text[j] == ' ' || text[j] == '\n' || text[j] == '\t')
        invariant j <= |text| && SkipWhite(text, j) == SkipWhite(text, i)
      {
        j := j + 1;
      }
    }

    method Encode(text: string, maxLen: int) returns (out: seq<nat>)
      ensures out == Encoded(Vocabulary(), text, maxLen)
    {
      ghost var v, left := Vocabulary(), Room(maxLen);
      ghost var all := Tokens(v, text, 0, left);
      ghost var done: seq<Token> := [];
      out := [cls];
      var i := 0;
      while i < |text| && |out| < maxLen - 1
        invariant i <= |text| && left == Room(maxLen) - |done| && |out| == |done| + 1
        invariant out == [cls] + Ids(done)
        invariant all == done + Tokens(v, text, i, left)
        decreases |text| - i
      {
        SkipsAlike(v, text, i, left);
        i := Skip(text, i);
        if i >= |text| {
          break;
        }
        var t := Match(text, i);
        TakeOne(v, text, i, left, done, t, cls, out);
        done, left := done + [t], left - 1;
        out := out + [t.id];
        i := t.end;
      }
      assert all == done by {
        NothingLeft(v, text, i, left);
      }
      out := out + [sep];
      out := PadTo(out, maxLen);
    }

    /** The closing loop. */
    method PadTo(body: seq<nat>, maxLen: int) returns (out: seq<nat>)
      ensures out == body + Repeated(pad, if |body| < maxLen then maxLen - |body| else 0)
    {
      out := body;
      while |out| < maxLen
        invariant |body| <= |out| && (|out| <= maxLen || out == body)
        invariant out == body + Repeated(pad, |out| - |body|)
      {
        OneMorePad(pad, body, out);
        out := out + [pad];
      }
    }
  }

  lemma {:induction false} OneMorePad(pad: nat, body: seq<nat>, out: seq<nat>)
    requires |body| <= |out| && out == body + Repeated(pad, |out| - |body|)
    ensures out + [pad] == body + Repeated(pad, |out| + 1 - |body|)
  {
  }

  lemma {:induction false} NothingLeft(v: Vocab, text: string, i: nat, left: nat)
    requires i <= |text| && (left == 0 || i == |text|)
    ensures Tokens(v, text, i, left) == []
  {
  }

  lemma {:induction false} SkipsAlike(v: Vocab, text: string, i: nat, n: nat)
    requires i <= |text|
    ensures Tokens(v, text, SkipWhite(text, i), n) == Tokens(v, text, i, n)
  {
  }

  lemma {:induction false} TakeOne(v: Vocab, text: string, i: nat, n: nat, done: seq<Token>, t: Token, cls: nat,
                                   out: seq<nat>)
    requires i < |text| && !White(text[i]) && n > 0 && t == NextToken(v, text, i)
    requires out == [cls] + Ids(done)
    ensures done + Tokens(v, text, i, n) == done + [t] + Tokens(v, text, t.end, n - 1)
    ensures out + [t.id] == [cls] + Ids(done + [t])
  {
    assert done + ([t] + Tokens(v, text, t.end, n - 1)) == done + [t] + Tokens(v, text, t.end, n - 1);
    assert Ids(done + [t]) == Ids(done) + [t.id];
  }

  // ----- What the tokens are, said without the scan -----

  /** The token is the longest vocabulary piece of at most 16 bytes at its start, or one unknown byte. */
  predicate Longest(v: Vocab, text: string, t: Token) {
    && t.start < t.end <= Limit(text, t.start)
    && (forall e | t.end < e <= Limit(text, t.start) :: text[t.start..e] !in v.ids)
    && var piece := text[t.start..t.end];
       if piece in v.ids then t.id == v.ids[piece] else t.end == t.start + 1 && t.id == v.unk
  }

  /** Longest pieces one after another with only whitespace skipped between them, until there are `n` or the
      rest of the text is blank. */
  ghost predicate Segmented(v: Vocab, text: string, i: nat, ts: seq<Token>, n: nat)
    decreases |ts|
  {
    if ts == [] then n == 0 || Gap(text, i, |text|)
    else n > 0 && Follows(v, text, i, ts[0]) && Segmented(v, text, ts[0].end, ts[1..], n - 1)
  }

  predicate Follows(v: Vocab, text: string, from: nat, t: Token) {
    Gap(text, from, t.start) && t.start < |text| && !White(text[t.start]) && Longest(v, text, t)
  }

  lemma {:induction false} GapsEndAlike(text: string, i: nat, a: nat)
    requires i <= |text| && Gap(text, i, a) && (a < |text| ==> !White(text[a]))
    ensures SkipWhite(text, i) == a
    decreases |text| - i
  {
    if i < a {
      GapsEndAlike(text, i + 1, a);
    }
  }

  lemma {:induction false} FollowsIsNext(v: Vocab, text: string, i: nat, t: Token)
    requires i <= |text|
    ensures Follows(v, text, i, t) <==>
              SkipWhite(text, i) < |text| && t == NextToken(v, text, SkipWhite(text, i))
  {
    var j := SkipWhite(text, i);
    if Follows(v, text, i, t) {
      GapsEndAlike(text, i, t.start);
      var r := LongestEnd(v.ids, text, j, Limit(text, j));
      if text[j..t.end] in v.ids {
        assert r == t.end;
      }
    }
  }

  lemma {:induction false} NoneSegmented(v: Vocab, text: string, i: nat, n: nat)
    requires i <= |text|
    ensures Segmented(v, text, i, [], n) <==> Tokens(v, text, i, n) == []
  {
    if Segmented(v, text, i, [], n) && n > 0 {
      GapsEndAlike(text, i, |text|);
    }
  }

  lemma {:induction false} TokensStep(v: Vocab, text: string, i: nat, t: Token, rest: seq<Token>, n: nat)
    requires i <= |text| && n > 0
    ensures [t] + rest == Tokens(v, text, i, n) <==>
              Follows(v, text, i, t) && rest == Tokens(v, text, t.end, n - 1)
  {
    FollowsIsNext(v, text, i, t);
    var ts := [t] + rest;
    assert ts[0] == t && ts[1..] == rest;
  }

  /** The scan's tokens are the one and only greedy segmentation. */
  lemma {:induction false} SegmentedExactly(v: Vocab, text: string, i: nat, ts: seq<Token>, n: nat)
    requires i <= |text|
    ensures Segmented(v, text, i, ts, n) <==> ts == Tokens(v, text, i, n)
    decreases n
  {
    if ts == [] {
      NoneSegmented(v, text, i, n);
    } else if n > 0 {
      var t, rest := ts[0], ts[1..];
      assert ts == [t] + rest;
      TokensStep(v, text, i, t, rest, n);
      if Follows(v, text, i, t) {
        SegmentedExactly(v, text, t.end, rest, n - 1);
      }
    }
  }

  lemma {:induction false} SegmentedEach(v: Vocab, text: string, i: nat, ts: seq<Token>, n: nat, k: nat)
    returns (from: nat)
    requires Segmented(v, text, i, ts, n) && k < |ts|
    ensures Follows(v, text, from, ts[k])
    decreases k
  {
    if k == 0 {
      from := i;
    } else {
      from := SegmentedEach(v, text, ts[0].end, ts[1..], n - 1, k - 1);
    }
  }

  // ----- The text rebuilt -----

  /** Skipped text and pieces in turn. */
  function Woven(gaps: seq<string>, pieces: seq<string>): string
    requires |gaps| == |pieces|
  {
    if gaps == [] then "" else gaps[0] + pieces[0] + Woven(gaps[1..], pieces[1..])
  }

  predicate Blank(s: string) {
    forall k | 0 <= k < |s| :: s[k] == ' ' || s[k] == '\n' || s[k] == '\t'
  }

  /** What a token shows of its text: a line of the vocabulary file, or one byte that is no line. */
  predicate Shows(v: Vocab, lines: seq<string>, t: Token, piece: string) {
    0 < |piece| <= 16 && !Blank(piece[..1])
    && if t.id < |lines| && lines[t.id] == piece then piece in v.ids
       else |piece| == 1 && piece !in lines && t.id == v.unk
  }

  lemma {:induction false} TokenShows(lines: seq<string>, text: string, i: nat, t: Token)
    requires Follows(Loaded(lines), text, i, t)
    ensures t.end <= |text| && Shows(Loaded(lines), lines, t, text[t.start..t.end])
  {
    LinesInvertIds(lines, text[t.start..t.end]);
  }

  ghost predicate EachShows(lines: seq<string>, gaps: seq<string>, pieces: seq<string>, ts: seq<Token>) {
    && |gaps| == |pieces| == |ts|
    && forall k | 0 <= k < |ts| :: Blank(gaps[k]) && Shows(Loaded(lines), lines, ts[k], pieces[k])
  }

  /** Ids decode through the vocabulary file: with the skipped whitespace the pieces they name, and one
      byte for each unknown, spell the text up to where encoding stopped. */
  lemma {:induction false} TextRebuilt(lines: seq<string>, text: string, i: nat, n: nat)
    returns (gaps: seq<string>, pieces: seq<string>, rest: string)
    requires i <= |text|
    ensures EachShows(lines, gaps, pieces, Tokens(Loaded(lines), text, i, n))
    ensures text[i..] == Woven(gaps, pieces) + rest
    ensures |Tokens(Loaded(lines), text, i, n)| < n ==> Blank(rest)
    decreases n
  {
    var v, j := Loaded(lines), SkipWhite(text, i);
    if n == 0 || j == |text| {
      gaps, pieces, rest := [], [], text[i..];
    } else {
      var t := NextToken(v, text, j);
      var gs, ps, r := TextRebuilt(lines, text, t.end, n - 1);
      gaps, pieces, rest := [text[i..j]] + gs, [text[j..t.end]] + ps, r;
      WeaveOne(text, i, t, gs, ps, r);
      RebuiltOne(lines, text, i, n, t, gs, ps);
    }
  }

  lemma {:induction false} WeaveOne(text: string, i: nat, t: Token, gs: seq<string>, ps: seq<string>, rest: string)
    requires i <= t.start < t.end <= |text| && |gs| == |ps|
    requires text[t.end..] == Woven(gs, ps) + rest
    ensures text[i..] == Woven([text[i..t.start]] + gs, [text[t.start..t.end]] + ps) + rest
  {
    var gaps, pieces := [text[i..t.start]] + gs, [text[t.start..t.end]] + ps;
    assert gaps[1..] == gs && pieces[1..] == ps;
    assert text[i..] == text[i..t.start] + text[t.start..t.end] + text[t.end..];
  }

  lemma {:induction false} RebuiltOne(lines: seq<string>, text: string, i: nat, n: nat, t: Token, gs: seq<string>,
                                      ps: seq<string>)
    requires i <= |text| && 0 < n && SkipWhite(text, i) < |text|
    requires t == NextToken(Loaded(lines), text, SkipWhite(text, i))
    requires EachShows(lines, gs, ps, Tokens(Loaded(lines), text, t.end, n - 1))
    ensures EachShows(lines, [text[i..t.start]] + gs, [text[t.start..t.end]] + ps, Tokens(Loaded(lines), text, i, n))
  {
    var v := Loaded(lines);
    var ts := Tokens(v, text, t.end, n - 1);
    FollowsIsNext(v, text, i, t);
    TokenShows(lines, text, i, t);
    assert Tokens(v, text, i, n) == [t] + ts;
    ShowsOne(lines, text[i..t.start], t, text[t.start..t.end], gs, ps, ts);
  }

  lemma {:induction false} ShowsOne(lines: seq<string>, gap: string, t: Token, piece: string,
                 gs: seq<string>, ps: seq<string>, ts: seq<Token>)
    requires Blank(gap) && Shows(Loaded(lines), lines, t, piece) && EachShows(lines, gs, ps, ts)
    ensures EachShows(lines, [gap] + gs, [piece] + ps, [t] + ts)
  {
  }

  // ----- The ids read through the vocabulary file -----

  predicate HasSpecials(lines: seq<string>) {
    "[CLS]" in lines && "[SEP]" in lines && "[PAD]" in lines && "[UNK]" in lines
  }

  /** The line an id names. */
  predicate Names(lines: seq<string>, id: nat, name: string) {
    id < |lines| && lines[id] == name
  }

  lemma {:induction false} SpecialsNamed(lines: seq<string>)
    requires HasSpecials(lines)
    ensures var v := Loaded(lines);
            && Names(lines, v.cls, "[CLS]") && Names(lines, v.sep, "[SEP]")
            && Names(lines, v.pad, "[PAD]") && Names(lines, v.unk, "[UNK]")
  {
    LinesInvertIds(lines, "[CLS]");
    LinesInvertIds(lines, "[SEP]");
    LinesInvertIds(lines, "[PAD]");
    LinesInvertIds(lines, "[UNK]");
  }

  /** A special the file lacks gets id 0, whatever line that is. */
  lemma {:induction false} MissingSpecialIsZero(lines: seq<string>)
    ensures "[CLS]" !in lines ==> Loaded(lines).cls == 0
    ensures "[SEP]" !in lines ==> Loaded(lines).sep == 0
    ensures "[PAD]" !in lines ==> Loaded(lines).pad == 0
    ensures "[UNK]" !in lines ==> Loaded(lines).unk == 0
  {
    LinesInvertIds(lines, "[CLS]");
    LinesInvertIds(lines, "[SEP]");
    LinesInvertIds(lines, "[PAD]");
    LinesInvertIds(lines, "[UNK]");
  }

  /** The bytes of the token, as a line or as unknown; and no longer line of at most 16 bytes begins there. */
  predicate Reads(lines: seq<string>, text: string, t: Token, id: nat) {
    && t.start < t.end <= |text|
    && Names(lines, id, if text[t.start..t.end] in lines then text[t.start..t.end] else "[UNK]")
    && (text[t.start..t.end] !in lines ==> t.end == t.start + 1)
    && forall e | t.end < e <= |text| && e <= t.start + 16 :: text[t.start..e] !in lines
  }

  lemma {:induction false} TokenReads(lines: seq<string>, text: string, from: nat, t: Token)
    requires HasSpecials(lines) && Follows(Loaded(lines), text, from, t)
    ensures Reads(lines, text, t, t.id)
  {
    SpecialsNamed(lines);
    LinesInvertIds(lines, text[t.start..t.end]);
    forall e | t.end < e <= |text| && e <= t.start + 16
      ensures text[t.start..e] !in lines
    {
      LinesInvertIds(lines, text[t.start..e]);
      assert e <= Limit(text, t.start);
    }
  }

  /** Decoded through the file the ids say "[CLS]", the longest lines the text spells, "[SEP]", and then "[PAD]" up
      to the length asked for. */
  lemma {:induction false} IdsDecode(lines: seq<string>, text: string, maxLen: int, out: seq<nat>, ts: seq<Token>)
    requires HasSpecials(lines) && out == Encoded(Loaded(lines), text, maxLen)
    requires ts == Tokens(Loaded(lines), text, 0, Room(maxLen))
    ensures |out| >= |ts| + 2 && Names(lines, out[0], "[CLS]") && Names(lines, out[|ts| + 1], "[SEP]")
    ensures forall k | |ts| + 2 <= k < |out| :: Names(lines, out[k], "[PAD]")
    ensures forall k | 0 <= k < |ts| :: Reads(lines, text, ts[k], out[k + 1])
  {
    var v := Loaded(lines);
    SpecialsNamed(lines);
    SegmentedExactly(v, text, 0, ts, Room(maxLen));
    forall k | 0 <= k < |ts|
      ensures Reads(lines, text, ts[k], out[k + 1])
    {
      var from := SegmentedEach(v, text, 0, ts, Room(maxLen), k);
      TokenReads(lines, text, from, ts[k]);
      assert out[k + 1] == Ids(ts)[k];
    }
  }

  function Stopped(i: nat, ts: seq<Token>): nat {
    if ts == [] then i else ts[|ts| - 1].end
  }

  /** Encoding stops short of `n` tokens only where nothing but whitespace is left. */
  lemma {:induction false} StopsAtBlank(v: Vocab, text: string, i: nat, n: nat)
    requires i <= |text| && |Tokens(v, text, i, n)| < n
    ensures Stopped(i, Tokens(v, text, i, n)) <= |text| && Blank(text[Stopped(i, Tokens(v, text, i, n))..])
    decreases n
  {
    var j := SkipWhite(text, i);
    if j < |text| {
      StopsAtBlank(v, text, NextToken(v, text, j).end, n - 1);
    }
  }

  /** All of the text is encoded unless there are already as many ids as fit between CLS and SEP. */
  lemma {:induction false} RoomIsUsed(v: Vocab, text: string, maxLen: int, ts: seq<Token>)
    requires ts == Tokens(v, text, 0, Room(maxLen))
    ensures |ts| + 2 == maxLen || maxLen <= 2 || (Stopped(0, ts) <= |text| && Blank(text[Stopped(0, ts)..]))
    ensures |ts| + 2 <= maxLen || ts == []
  {
    if |ts| < Room(maxLen) {
      StopsAtBlank(v, text, 0, Room(maxLen));
    }
  }

  // ----- Length and truncation -----

  /** The length asked for comes out exactly when it leaves room for CLS and SEP. */
  lemma {:induction false} LengthExactly(v: Vocab, text: string, maxLen: int)
    ensures |Encoded(v, text, maxLen)| == maxLen <==> maxLen >= 2
    ensures maxLen < 2 ==> Encoded(v, text, maxLen) == [v.cls, v.sep]
  {
  }

  /** Asking for less only cuts tokens off the end. */
  lemma {:induction false} TruncationIsPrefix(v: Vocab, text: string, i: nat, m: nat, n: nat)
    requires i <= |text| && m <= n
    ensures Tokens(v, text, i, m) <= Tokens(v, text, i, n)
    ensures |Tokens(v, text, i, m)| < m ==> Tokens(v, text, i, m) == Tokens(v, text, i, n)
    decreases m
  {
    var j := SkipWhite(text, i);
    if m > 0 && j < |text| {
      TruncationIsPrefix(v, text, NextToken(v, text, j).end, m - 1, n - 1);
    }
  }

  // ----- The attention mask -----

  method Mask(ids: seq<nat>, pad: nat) returns (mask: seq<nat>)
    ensures |mask| == |ids| && forall k | 0 <= k < |ids| :: mask[k] == if ids[k] == pad then 0 else 1
  {
    mask := Repeated(1, |ids|);
    for i := 0 to |ids|
      invariant |mask| == |ids|
      invariant forall k | 0 <= k < |ids| :: mask[k] == if k < i && ids[k] == pad then 0 else 1
    {
      if ids[i] == pad {
        mask := mask[i := 0];
      }
    }
  }

  predicate MaskOf(mask: seq<nat>, ids: seq<nat>, pad: nat) {
    |mask| == |ids| && forall k | 0 <= k < |ids| :: mask[k] == if ids[k] == pad then 0 else 1
  }

  /** On up to `used`, off behind it. */
  predicate CoversFirst(mask: seq<nat>, used: nat) {
    used <= |mask| && mask == Repeated(1, used) + Repeated(0, |mask| - used)
  }

  lemma {:induction false} EncodedShape(v: Vocab, text: string, maxLen: int, ids: seq<nat>, used: nat)
    requires ids == Encoded(v, text, maxLen) && used == |Tokens(v, text, 0, Room(maxLen))| + 2
    ensures used <= |ids| && ids[..used] == [v.cls] + Ids(Tokens(v, text, 0, Room(maxLen))) + [v.sep]
    ensures forall k | used <= k < |ids| :: ids[k] == v.pad
  {
    var body := [v.cls] + Ids(Tokens(v, text, 0, Room(maxLen))) + [v.sep];
    assert ids[..used] == body;
  }

  lemma {:induction false} CoversExactly(mask: seq<nat>, ids: seq<nat>, pad: nat, used: nat)
    requires MaskOf(mask, ids, pad) && used <= |ids| && forall k | used <= k < |ids| :: ids[k] == pad
    ensures CoversFirst(mask, used) <==> pad !in ids[..used]
  {
    var want := Repeated(1, used) + Repeated(0, |mask| - used);
    if pad in ids[..used] {
      var k :| 0 <= k < used && ids[k] == pad;
      assert mask[k] == 0 && want[k] == 1;
    } else {
      assert forall k | 0 <= k < used :: ids[..used][k] == ids[k];
      assert mask == want;
    }
  }

  /** Attention is on for CLS, the tokens and SEP, and off for the padding, exactly when none of the
      former has the id of the padding. */
  lemma {:induction false} MaskExactly(v: Vocab, text: string, maxLen: int, mask: seq<nat>)
    requires MaskOf(mask, Encoded(v, text, maxLen), v.pad)
    ensures var ts := Tokens(v, text, 0, Room(maxLen));
            CoversFirst(mask, |ts| + 2) <==> v.pad != v.cls && v.pad != v.sep && v.pad !in Ids(ts)
  {
    var ts, ids := Tokens(v, text, 0, Room(maxLen)), Encoded(v, text, maxLen);
    EncodedShape(v, text, maxLen, ids, |ts| + 2);
    CoversExactly(mask, ids, v.pad, |ts| + 2);
  }

  lemma {:induction false} SpecialsApart(lines: seq<string>)
    requires HasSpecials(lines)
    ensures var v := Loaded(lines); v.pad != v.cls && v.pad != v.sep && v.pad != v.unk
  {
    SpecialsNamed(lines);
  }

  /** With all four specials in the file, only the text "[PAD]" can be taken for padding. */
  lemma {:induction false} PadOnlyFromText(lines: seq<string>, text: string, i: nat, t: Token)
    requires HasSpecials(lines) && Follows(Loaded(lines), text, i, t)
    ensures t.id == Loaded(lines).pad <==> text[t.start..t.end] == "[PAD]"
  {
    SpecialsApart(lines);
    LinesInvertIds(lines, "[PAD]");
    LinesInvertIds(lines, text[t.start..t.end]);
  }

  /** So the mask is right for every text that does not contain it. */
  lemma {:induction false} MaskRightWithoutPad(lines: seq<string>, text: string, maxLen: int, mask: seq<nat>)
    requires HasSpecials(lines) && MaskOf(mask, Encoded(Loaded(lines), text, maxLen), Loaded(lines).pad)
    requires !SpellsPad(text)
    ensures CoversFirst(mask, |Tokens(Loaded(lines), text, 0, Room(maxLen))| + 2)
  {
    var v := Loaded(lines);
    var n := Room(maxLen);
    var ts := Tokens(v, text, 0, n);
    SpecialsApart(lines);
    SegmentedExactly(v, text, 0, ts, n);
    forall k | 0 <= k < |ts|
      ensures ts[k].id != v.pad
    {
      var from := SegmentedEach(v, text, 0, ts, n, k);
      PadOnlyFromText(lines, text, from, ts[k]);
      assert !PadAt(text, ts[k].start);
    }
    MaskExactly(v, text, maxLen, mask);
  }

  predicate PadAt(text: string, i: nat) {
    i + 5 <= |text| && text[i..i + 5] == "[PAD]"
  }

  ghost predicate SpellsPad(text: string) {
    exists i: nat :: PadAt(text, i)
  }

  /** The smallest vocabulary with all four specials. */
  const BARE: seq<string> := ["[PAD]", "[UNK]", "[CLS]", "[SEP]"]

  lemma {:induction false} BareIds(piece: string)
    ensures piece in Loaded(BARE).ids <==> piece in BARE
    ensures "[PAD]" in Loaded(BARE).ids && Loaded(BARE).ids["[PAD]"] == Loaded(BARE).pad
  {
    LinesInvertIds(BARE, piece);
    LinesInvertIds(BARE, "[PAD]");
  }

  /** A bare piece opens with a bracket and has no second one. */
  lemma {:induction false} OneBracket(piece: string, k: nat)
    requires piece in BARE && k < |piece|
    ensures |piece| == 5 && (piece[k] == '[' <==> k == 0)
  {
  }

  /** No token of the bare vocabulary runs over the opening bracket of an occurrence ahead of it. */
  lemma {:induction false} StopsAtBracket(text: string, j: nat, i: nat)
    requires PadAt(text, i) && j < i
    ensures NextToken(Loaded(BARE), text, j).end <= i
  {
    var t := NextToken(Loaded(BARE), text, j);
    assert text[i] == text[i..i + 5][0] == '[';
    var piece := text[j..t.end];
    BareIds(piece);
    if piece in BARE && i < t.end {
      assert piece[i - j] == '[';
      OneBracket(piece, i - j);
    }
  }

  lemma {:induction false} PadIsTaken(text: string, i: nat)
    requires PadAt(text, i)
    ensures NextToken(Loaded(BARE), text, i) == Token(i, i + 5, Loaded(BARE).pad)
  {
    var ids := Loaded(BARE).ids;
    var end := LongestEnd(ids, text, i, Limit(text, i));
    BareIds(text[i..i + 5]);
    assert i + 5 <= end;
    BareIds(text[i..end]);
    OneBracket(text[i..end], 0);
  }

  /** From any start at or before an occurrence the bare vocabulary comes to it with room for as many tokens as
      there are bytes on the way and one more. */
  lemma {:induction false} PadIsReached(text: string, i: nat, p: nat, n: nat)
    requires PadAt(text, i) && p <= i < p + n
    ensures Token(i, i + 5, Loaded(BARE).pad) in Tokens(Loaded(BARE), text, p, n)
    decreases n
  {
    var v, j := Loaded(BARE), SkipWhite(text, p);
    assert text[i] == text[i..i + 5][0] == '[';
    assert j <= i;
    var t := NextToken(v, text, j);
    if j == i {
      PadIsTaken(text, i);
    } else {
      StopsAtBracket(text, j, i);
      PadIsReached(text, i, t.end, n - 1);
    }
    assert Tokens(v, text, p, n) == [t] + Tokens(v, text, t.end, n - 1);
  }

  /** Wherever a text spells the padding, some vocabulary and length mask that away though it is text. */
  lemma {:induction false} PadTextIsMasked(text: string, i: nat, mask: seq<nat>)
    requires PadAt(text, i) && MaskOf(mask, Encoded(Loaded(BARE), text, i + 3), Loaded(BARE).pad)
    ensures HasSpecials(BARE) && !CoversFirst(mask, |Tokens(Loaded(BARE), text, 0, Room(i + 3))| + 2)
  {
    var v := Loaded(BARE);
    var ts := Tokens(v, text, 0, Room(i + 3));
    PadIsReached(text, i, 0, Room(i + 3));
    var k :| 0 <= k < |ts| && ts[k] == Token(i, i + 5, v.pad);
    assert Ids(ts)[k] == v.pad;
    MaskExactly(v, text, i + 3, mask);
  }

  function MaskFor(ids: seq<nat>, pad: nat): (mask: seq<nat>)
    ensures MaskOf(mask, ids, pad)
  {
    seq(|ids|, k requires 0 <= k < |ids| => if ids[k] == pad then 0 else 1)
  }

  /** The mask covers exactly CLS, the tokens and SEP, whatever the vocabulary and the length. */
  ghost predicate MaskedRight(text: string) {
    forall lines, maxLen: int, mask |
      HasSpecials(lines) && MaskOf(mask, Encoded(Loaded(lines), text, maxLen), Loaded(lines).pad) ::
      CoversFirst(mask, |Tokens(Loaded(lines), text, 0, Room(maxLen))| + 2)
  }

  /** A text is masked right under every vocabulary with the four specials, at every length, exactly when it does
      not spell the padding. */
  lemma {:induction false} MaskedRightExactly(text: string)
    ensures MaskedRight(text) <==> !SpellsPad(text)
  {
    if SpellsPad(text) {
      var i: nat :| PadAt(text, i);
      var v, ids := Loaded(BARE), Encoded(Loaded(BARE), text, i + 3);
      PadTextIsMasked(text, i, MaskFor(ids, v.pad));
      assert MaskOf(MaskFor(ids, v.pad), Encoded(v, text, i + 3), v.pad);
    } else {
      forall lines, maxLen: int, mask |
        HasSpecials(lines) && MaskOf(mask, Encoded(Loaded(lines), text, maxLen), Loaded(lines).pad)
        ensures CoversFirst(mask, |Tokens(Loaded(lines), text, 0, Room(maxLen))| + 2)
      {
        MaskRightWithoutPad(lines, text, maxLen, mask);
      }
    }
  }

  /** The text "[PAD]" itself. */
  lemma {:induction false} PadTextExample(mask: seq<nat>)
    requires MaskOf(mask, Encoded(Loaded(BARE), "[PAD]", 3), Loaded(BARE).pad)
    ensures mask == [1, 0, 1]
  {
    var v := Loaded(BARE);
    assert "[PAD]"[0..5] == "[PAD]";
    PadIsTaken("[PAD]", 0);
    SpecialsApart(BARE);
    assert SkipWhite("[PAD]", 0) == 0;
    assert Tokens(v, "[PAD]", 0, 1) == [Token(0, 5, v.pad)] + Tokens(v, "[PAD]", 5, 0);
    assert Encoded(v, "[PAD]", 3) == [v.cls, v.pad, v.sep];
  }
}
