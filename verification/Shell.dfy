/**
 The command-line parser of sh.c.  The cursor *ps is a position in the line; panics are
 failed parses.  Words are recorded as spans of the line, and nulterminate then writes a NUL
 behind each of them, in place.
 */
module Shell {
  import opened ShellGrammar

  const NUL := '\0'
  const WHITESPACE := " \t\r\n\U{B}"
  const SYMBOLS := "<|>&;()"

  // A command line as the shell reads it: the terminating NUL is its only one.
  predicate IsLine(s: string) {
    forall i | 0 <= i < |s| :: s[i] != NUL
  }

  function Ch(s: string, i: nat): char {
    if i < |s| then s[i] else NUL
  }

  predicate Plain(c: char) {
    c != NUL && c !in WHITESPACE && c !in SYMBOLS
  }

  // A word: plain characters, as many as there are.
  predicate IsWord(s: string, w: Span) {
    && w.q < w.eq <= |s| && (forall i | w.q <= i < w.eq :: Plain(s[i]))
    && !Plain(Ch(s, w.eq))
  }

  // ------------------------------------------------------------ tokens

  // The first position from pos on that is no white space.
  function Skip(s: string, pos: nat): (r: nat)
    requires pos <= |s|
    ensures pos <= r <= |s| && (r < |s| ==> s[r] !in WHITESPACE)
    decreases |s| - pos
  {
    if pos < |s| && s[pos] in WHITESPACE then Skip(s, pos + 1) else pos
  }

  // The end of the plain characters from pos on.
  function WordEnd(s: string, pos: nat): (r: nat)
    requires pos <= |s|
    ensures pos <= r <= |s| && (pos < |s| && Plain(s[pos]) ==> pos < r)
    decreases |s| - pos
  {
    if pos < |s| && Plain(s[pos]) then WordEnd(s, pos + 1) else pos
  }

  // The tokens from pos on.
  function Tokens(s: string, pos: nat): seq<Token>
    requires IsLine(s) && pos <= |s|
    decreases |s| - pos
  {
    var q := Skip(s, pos);
    if q == |s| then []
    else if s[q] == '>' && Ch(s, q + 1) == '>' then [Symbol('+')] + Tokens(s, q + 2)
    else if s[q] in SYMBOLS then [Symbol(s[q])] + Tokens(s, q + 1)
    else [Word(Span(q, WordEnd(s, q)))] + Tokens(s, WordEnd(s, q))
  }

  lemma SkipAgain(s: string, pos: nat)
    requires IsLine(s) && pos <= |s|
    ensures Tokens(s, Skip(s, pos)) == Tokens(s, pos)
  {
    assert Skip(s, Skip(s, pos)) == Skip(s, pos);
  }

  // What stands between tokens.
  predicate Blank(c: char) {
    c == ' ' || c == '\t' || c == '\r' || c == '\n' || c == '\U{B}'
  }

  // Token tok is spelled s[q..e]: >> and the seven symbols by themselves, a word as long as it can be.
  predicate Spelled(s: string, q: nat, tok: Token, e: nat) {
    match tok
    case Word(w) =>
      && w == Span(q, e) && q < e <= |s|
      && (forall i | q <= i < e :: !Blank(s[i]) && !Special(s[i]))
      && (e < |s| ==> Blank(s[e]) || Special(s[e]))
    case Symbol(c) =>
      if c == '+' then e == q + 2 <= |s| && s[q] == '>' && s[q + 1] == '>'
      else e == q + 1 <= |s| && s[q] == c && Special(c) && (c == '>' && e < |s| ==> s[e] != '>')
  }

  predicate Special(c: char) {
    c == '<' || c == '|' || c == '>' || c == '&' || c == ';' || c == '(' || c == ')'
  }

  // The line from pos on is blanks, a token, blanks, a token, and so on.
  ghost predicate Lexed(s: string, pos: nat, ts: seq<Token>)
    decreases |ts|
  {
    if ts == [] then pos <= |s| && forall i | pos <= i < |s| :: Blank(s[i])
    else exists q: nat, e: nat :: LexedAt(s, pos, ts, q, e)
  }

  ghost predicate LexedAt(s: string, pos: nat, ts: seq<Token>, q: nat, e: nat)
    requires ts != []
    decreases |ts|, 0
  {
    && pos <= q < |s| && (forall i | pos <= i < q :: Blank(s[i])) && Spelled(s, q, ts[0], e) && Lexed(s, e, ts[1..])
  }

  lemma {:induction false} SkipIs(s: string, pos: nat, q: nat)
    requires pos <= q <= |s| && (forall i | pos <= i < q :: Blank(s[i])) && (q < |s| ==> !Blank(s[q]))
    ensures Skip(s, pos) == q
    decreases q - pos
  {
    if pos < q { SkipIs(s, pos + 1, q); }
  }

  lemma {:induction false} SkipBlanks(s: string, pos: nat)
    requires pos <= |s|
    ensures forall i | pos <= i < Skip(s, pos) :: Blank(s[i])
    decreases |s| - pos
  {
    if pos < |s| && s[pos] in WHITESPACE { SkipBlanks(s, pos + 1); }
  }

  lemma {:induction false} WordEndIs(s: string, q: nat, e: nat)
    requires IsLine(s) && q <= e <= |s| && (forall i | q <= i < e :: !Blank(s[i]) && !Special(s[i]))
    requires e < |s| ==> Blank(s[e]) || Special(s[e])
    ensures WordEnd(s, q) == e
    decreases e - q
  {
    if q < e { WordEndIs(s, q + 1, e); }
  }

  lemma {:induction false} WordEndSpelled(s: string, q: nat)
    requires IsLine(s) && q <= |s|
    ensures forall i | q <= i < WordEnd(s, q) :: !Blank(s[i]) && !Special(s[i])
    ensures WordEnd(s, q) < |s| ==> Blank(s[WordEnd(s, q)]) || Special(s[WordEnd(s, q)])
    decreases |s| - q
  {
    if q < |s| && Plain(s[q]) { WordEndSpelled(s, q + 1); }
  }

  // A line has one reading as blanks and tokens, and Tokens is that reading.
  lemma {:induction false} TokensIff(s: string, pos: nat, ts: seq<Token>)
    requires IsLine(s) && pos <= |s|
    ensures Lexed(s, pos, ts) <==> Tokens(s, pos) == ts
    decreases |s| - pos
  {
    var r := Skip(s, pos);
    SkipBlanks(s, pos);
    if r == |s| {
      if ts != [] { NoToken(s, pos, ts); }
    } else {
      FirstToken(s, pos, ts);
    }
  }

  lemma NoToken(s: string, pos: nat, ts: seq<Token>)
    requires IsLine(s) && pos <= |s| && Skip(s, pos) == |s| && ts != []
    ensures !Lexed(s, pos, ts)
  {
    forall q: nat, e: nat ensures !LexedAt(s, pos, ts, q, e) {
      if LexedAt(s, pos, ts, q, e) { SkipIs(s, pos, q); }
    }
  }

  lemma {:induction false} FirstToken(s: string, pos: nat, ts: seq<Token>)
    requires IsLine(s) && pos <= |s| && Skip(s, pos) < |s|
    ensures Lexed(s, pos, ts) <==> Tokens(s, pos) == ts
    decreases |s| - pos, 0
  {
    var q := Skip(s, pos);
    SkipBlanks(s, pos);
    var tok, e := TokenAt(s, pos);
    if ts != [] {
      TokensIff(s, e, ts[1..]);
      if Tokens(s, pos) == ts {
        assert LexedAt(s, pos, ts, q, e);
      }
      if q': nat, e': nat :| LexedAt(s, pos, ts, q', e') {
        SkipIs(s, pos, q');
        OneSpelling(s, q, tok, e, ts[0], e');
        assert ts == [ts[0]] + ts[1..];
      }
    } else {
      assert !Blank(s[q]);
    }
  }

  lemma TokenAt(s: string, pos: nat) returns (tok: Token, e: nat)
    requires IsLine(s) && pos <= |s| && Skip(s, pos) < |s|
    ensures pos < e <= |s| && Spelled(s, Skip(s, pos), tok, e) && Tokens(s, pos) == [tok] + Tokens(s, e)
  {
    var q := Skip(s, pos);
    WordEndSpelled(s, q);
    e := if s[q] == '>' && Ch(s, q + 1) == '>' then q + 2 else if s[q] in SYMBOLS then q + 1 else WordEnd(s, q);
    tok := Tokens(s, pos)[0];
  }

  lemma OneSpelling(s: string, q: nat, t: Token, e: nat, t': Token, e': nat)
    requires IsLine(s) && q < |s| && Spelled(s, q, t, e) && Spelled(s, q, t', e')
    ensures t == t' && e == e'
  {
    if t.Word? { WordEndIs(s, q, e); }
    if t'.Word? { WordEndIs(s, q, e'); }
  }

  method SkipSpace(s: string, pos: nat) returns (pos': nat)
    requires pos <= |s|
    ensures pos' == Skip(s, pos)
  {
    pos' := pos;
    while pos' < |s| && s[pos'] in WHITESPACE
      invariant pos <= pos' <= |s| && Skip(s, pos') == Skip(s, pos)
    {
      pos' := pos' + 1;
    }
  }

  datatype Got = End | Got(tok: Token)

  // The next token, and the cursor behind it.
  method GetToken(s: string, pos: nat) returns (got: Got, pos': nat)
    requires IsLine(s) && pos <= |s|
    ensures pos <= pos' <= |s|
    ensures got == End ==> Tokens(s, pos) == [] == Tokens(s, pos')
    ensures got.Got? ==> pos < pos' && Tokens(s, pos) == [got.tok] + Tokens(s, pos')
    ensures got.Got? && got.tok.Word? ==> IsWord(s, got.tok.w) && pos <= got.tok.w.q && got.tok.w.eq <= pos'
  {
    var q := SkipSpace(s, pos);
    SkipAgain(s, pos);
    var e := q;
    if q == |s| {
      got := End;
    } else if s[q] == '>' {
      e := q + 1;
      got := Got(Symbol('>'));
      if Ch(s, e) == '>' {
        got, e := Got(Symbol('+')), e + 1;
      }
    } else if s[q] in SYMBOLS {
      got, e := Got(Symbol(s[q])), q + 1;
    } else {
      e := ScanWord(s, q);
      got := Got(Word(Span(q, e)));
    }
    TokensAt(s, q);
    pos' := SkipSpace(s, e);
    SkipAgain(s, e);
  }

  // The word that starts at q.
  method ScanWord(s: string, q: nat) returns (e: nat)
    requires IsLine(s) && q < |s| && Plain(s[q])
    ensures e == WordEnd(s, q) && IsWord(s, Span(q, e))
  {
    e := q;
    while e < |s| && s[e] !in WHITESPACE && s[e] !in SYMBOLS
      invariant q <= e <= |s| && (forall i | q <= i < e :: Plain(s[i])) && WordEnd(s, e) == WordEnd(s, q)
      invariant q == e ==> Plain(s[q])
    {
      e := e + 1;
    }
  }

  lemma TokensAt(s: string, q: nat)
    requires IsLine(s) && q <= |s| && (q < |s| ==> s[q] !in WHITESPACE)
    ensures q == |s| ==> Tokens(s, q) == []
    ensures q < |s| && s[q] == '>' && Ch(s, q + 1) == '>' ==> Tokens(s, q) == [Symbol('+')] + Tokens(s, q + 2)
    ensures q < |s| && s[q] in SYMBOLS && !(s[q] == '>' && Ch(s, q + 1) == '>') ==>
      Tokens(s, q) == [Symbol(s[q])] + Tokens(s, q + 1)
    ensures q < |s| && s[q] !in SYMBOLS ==> Tokens(s, q) == [Word(Span(q, WordEnd(s, q)))] + Tokens(s, WordEnd(s, q))
  {
    assert Skip(s, q) == q;
  }

  // The first token seen from its first character.
  predicate FirstOf(c: char, tok: Token) {
    && (c == '>' <==> tok == Symbol('>') || tok == Symbol('+'))
    && (c != '>' ==> (c in SYMBOLS ==> tok == Symbol(c)) && (c !in SYMBOLS ==> tok.Word?))
  }

  method Peek(s: string, pos: nat, toks: string) returns (pos': nat, r: bool)
    requires IsLine(s) && pos <= |s|
    ensures pos <= pos' <= |s| && Tokens(s, pos') == Tokens(s, pos)
    ensures pos' == |s| <==> Tokens(s, pos) == []
    ensures pos' < |s| ==> FirstOf(s[pos'], Tokens(s, pos)[0])
    ensures r <==> pos' < |s| && s[pos'] in toks
  {
    pos' := SkipSpace(s, pos);
    SkipAgain(s, pos);
    r := pos' < |s| && s[pos'] in toks;
  }

  // ------------------------------------------------------------- spans

  function Words(cmd: Cmd): seq<Span> {
    match cmd
    case Exec(args) => args
    case Redir(c, file, mode) => Words(c) + [file]
    case Pipe(l, r) => Words(l) + Words(r)
    case List(l, r) => Words(l) + Words(r)
    case Back(c) => Words(c)
  }

  predicate Apart(v: Span, w: Span) {
    v.eq <= w.q || w.eq <= v.q
  }

  // Words of s within lo..hi, no two of which overlap.
  ghost predicate Spans(s: string, ws: seq<Span>, lo: nat, hi: nat) {
    && (forall i | 0 <= i < |ws| :: IsWord(s, ws[i]) && lo <= ws[i].q && ws[i].eq <= hi)
    && (forall i, j | 0 <= i < j < |ws| :: Apart(ws[i], ws[j]))
  }

  ghost predicate Good(s: string, cmd: Cmd, lo: nat, hi: nat) {
    Spans(s, Words(cmd), lo, hi) && FewArgs(cmd)
  }

  lemma SpansJoin(s: string, a: seq<Span>, b: seq<Span>, lo: nat, mid: nat, mid': nat, hi: nat)
    requires Spans(s, a, lo, mid) && Spans(s, b, mid', hi) && lo <= mid <= mid' <= hi
    ensures Spans(s, a + b, lo, hi)
  {
  }

  lemma SpansWider(s: string, a: seq<Span>, lo: nat, hi: nat, lo': nat, hi': nat)
    requires Spans(s, a, lo, hi) && lo' <= lo && hi <= hi'
    ensures Spans(s, a, lo', hi')
  {
  }

  // -------------------------------------------------------- redirections

  function Files(redirs: seq<Redirection>): (r: seq<Span>)
    ensures |r| == |redirs| && forall i | 0 <= i < |r| :: r[i] == redirs[i].file
  {
    seq(|redirs|, i requires 0 <= i < |redirs| => redirs[i].file)
  }

  lemma {:induction false} WrapWords(cmd: Cmd, redirs: seq<Redirection>)
    ensures Words(Wrap(cmd, redirs)) == Words(cmd) + Files(redirs)
    ensures FewArgs(Wrap(cmd, redirs)) == FewArgs(cmd)
  {
    var n := |redirs|;
    if n == 0 {
      assert Files(redirs) == [];
    } else {
      WrapWords(cmd, redirs[..n - 1]);
      assert Files(redirs) == Files(redirs[..n - 1]) + [redirs[n - 1].file];
    }
  }

  // One redirection, whose symbol is at the cursor.
  method ParseRedir(s: string, pos: nat, redirs: seq<Redirection>) returns (ok: bool, r1: Redirection, pos': nat)
    requires IsLine(s) && pos <= |s| && StartsRedir(Tokens(s, pos))
    ensures pos <= pos' <= |s|
    ensures ok ==> pos < pos' && IsWord(s, r1.file) && pos <= r1.file.q && r1.file.eq <= pos'
    ensures ShellGrammar.ParseRedirs(Tokens(s, pos), redirs) ==
            if ok then ShellGrammar.ParseRedirs(Tokens(s, pos'), redirs + [r1]) else Fail
  {
    var got, p1 := GetToken(s, pos);
    var got2, p2 := GetToken(s, p1);
    r1 := Redirection(Span(0, 0), Input);
    ok, pos' := got2.Got? && got2.tok.Word?, pos;
    if ok {
      RedirStep(got.tok.c, got2.tok.w, Tokens(s, p2), redirs);
      r1, pos' := Redirection(got2.tok.w, ModeOf(got.tok.c)), p2;
    }
  }

  // parseredirs: the redirections at the cursor, added to those there are.
  method ParseRedirs(s: string, pos: nat, redirs: seq<Redirection>)
    returns (ok: bool, redirs': seq<Redirection>, pos': nat, ghost more: seq<Redirection>)
    requires IsLine(s) && pos <= |s|
    ensures pos <= pos' <= |s| && redirs' == redirs + more
    ensures ShellGrammar.ParseRedirs(Tokens(s, pos), redirs) == if ok then Done(redirs', Tokens(s, pos')) else Fail
    ensures ok ==> Spans(s, Files(more), pos, pos')
  {
    more := [];
    redirs', ok := redirs, true;
    var r;
    pos', r := Peek(s, pos, "<>");
    while r
      invariant ok && pos <= pos' <= |s| && redirs' == redirs + more && Spans(s, Files(more), pos, pos')
      invariant r <==> StartsRedir(Tokens(s, pos'))
      invariant ShellGrammar.ParseRedirs(Tokens(s, pos), redirs) == ShellGrammar.ParseRedirs(Tokens(s, pos'), redirs')
      decreases |s| - pos', r
    {
      var ok1, r1, p2 := ParseRedir(s, pos', redirs');
      if !ok1 {
        return false, redirs', pos', more;
      }
      redirs' := redirs' + [r1];
      AddFile(s, more, r1, pos, pos', p2);
      more := more + [r1];
      assert redirs + more == redirs';
      pos', r := Peek(s, p2, "<>");
      SpansWider(s, Files(more), pos, p2, pos, pos');
    }
  }

  lemma AddFile(s: string, redirs: seq<Redirection>, r: Redirection, lo: nat, mid: nat, hi: nat)
    requires Spans(s, Files(redirs), lo, mid) && IsWord(s, r.file) && mid <= r.file.q && r.file.eq <= hi
    requires lo <= mid <= hi
    ensures Spans(s, Files(redirs + [r]), lo, hi)
  {
    assert Files(redirs + [r]) == Files(redirs) + [r.file];
    SpansJoin(s, Files(redirs), [r.file], lo, mid, mid, hi);
  }

  lemma SpansInsert(s: string, a: seq<Span>, b: seq<Span>, w: Span, lo: nat, mid: nat, hi: nat)
    requires Spans(s, a + b, lo, mid) && IsWord(s, w) && lo <= mid <= w.q && w.eq <= hi
    ensures Spans(s, (a + [w]) + b, lo, hi)
  {
    var old_, ws := a + b, (a + [w]) + b;
    var n := |a|;
    forall i | 0 <= i < |ws| ensures IsWord(s, ws[i]) && lo <= ws[i].q && ws[i].eq <= hi {
      if i != n { assert ws[i] == old_[if i < n then i else i - 1]; }
    }
    forall i, j | 0 <= i < j < |ws| ensures Apart(ws[i], ws[j]) {
      if i != n { assert ws[i] == old_[if i < n then i else i - 1]; }
      if j != n { assert ws[j] == old_[if j < n then j else j - 1]; }
    }
  }

  lemma FilesMore(s: string, a: seq<Span>, redirs: seq<Redirection>, more: seq<Redirection>, lo: nat, mid: nat, hi: nat)
    requires Spans(s, a + Files(redirs), lo, mid) && Spans(s, Files(more), mid, hi) && lo <= mid <= hi
    ensures Spans(s, a + Files(redirs + more), lo, hi)
  {
    SpansJoin(s, a + Files(redirs), Files(more), lo, mid, mid, hi);
    assert a + Files(redirs + more) == a + Files(redirs) + Files(more);
  }

  // ------------------------------------------------------------- commands

  // Each method reads off the line what the grammar's parser makes of the tokens at pos.
  ghost predicate Agrees(s: string, out: Out<Cmd>, ok: bool, cmd: Cmd, lo: nat, pos: nat)
    requires IsLine(s) && pos <= |s|
  {
    out == (if ok then Done(cmd, Tokens(s, pos)) else Fail) && (ok ==> Good(s, cmd, lo, pos))
  }

  method ParseExec(s: string, pos: nat) returns (ok: bool, cmd: Cmd, pos': nat)
    requires IsLine(s) && pos <= |s|
    ensures pos <= pos' <= |s| && Agrees(s, ShellGrammar.ParseExec(Tokens(s, pos)), ok, cmd, pos, pos')
    decreases |s| - pos, 1
  {
    cmd := Exec([]);
    var p, block := Peek(s, pos, "(");
    if block {
      ok, cmd, pos' := ParseBlock(s, p);
      if ok { SpansWider(s, Words(cmd), p, pos', pos, pos'); }
      return;
    }
    var redirs;
    ghost var more;
    ok, redirs, pos', more := ParseRedirs(s, p, []);
    if !ok {
      return;
    }
    assert redirs == more;
    SpansWider(s, Files(redirs), p, pos', pos, pos');
    ok, cmd, pos' := ParseArgs(s, pos', redirs, pos);
  }

  datatype Round = Next | Stop | Bad

  // One round of the word loop of parseexec.
  method ParseArg(s: string, pos: nat, args: seq<Span>, redirs: seq<Redirection>, ghost lo: nat)
    returns (round: Round, args': seq<Span>, redirs': seq<Redirection>, pos': nat)
    requires IsLine(s) && lo <= pos <= |s| && |args| < MAXARGS && Spans(s, args + Files(redirs), lo, pos)
    ensures pos <= pos' <= |s| && (round.Next? ==> pos < pos')
    ensures !round.Bad? ==> |args'| < MAXARGS && Spans(s, args' + Files(redirs'), lo, pos')
    ensures ShellGrammar.ParseArgs(Tokens(s, pos), args, redirs) ==
      match round
      case Next => ShellGrammar.ParseArgs(Tokens(s, pos'), args', redirs')
      case Stop => Done(Wrap(Exec(args'), redirs'), Tokens(s, pos'))
      case Bad => Fail
  {
    args', redirs' := args, redirs;
    var p0, stop := Peek(s, pos, "|)&;");
    pos' := p0;
    if stop {
      SpansWider(s, args + Files(redirs), lo, pos, lo, pos');
      return Stop, args', redirs', pos';
    }
    var got, p1 := GetToken(s, p0);
    if got == End {
      SpansWider(s, args + Files(redirs), lo, pos, lo, p1);
      return Stop, args', redirs', p1;
    }
    if !got.tok.Word? {
      return Bad, args', redirs', pos';
    }
    assert Tokens(s, p0)[1..] == Tokens(s, p1);
    args' := args + [got.tok.w];
    if |args'| >= MAXARGS {
      return Bad, args', redirs', pos';
    }
    SpansInsert(s, args, Files(redirs), got.tok.w, lo, pos, p1);
    var ok;
    ghost var more;
    ok, redirs', pos', more := ParseRedirs(s, p1, redirs);
    round := if ok then Next else Bad;
    if ok {
      FilesMore(s, args', redirs, more, lo, p1, pos');
    }
  }

  // The word loop of parseexec.
  method ParseArgs(s: string, pos: nat, redirs0: seq<Redirection>, ghost lo: nat)
    returns (ok: bool, cmd: Cmd, pos': nat)
    requires IsLine(s) && lo <= pos <= |s| && Spans(s, Files(redirs0), lo, pos)
    ensures pos <= pos' <= |s| && Agrees(s, ShellGrammar.ParseArgs(Tokens(s, pos), [], redirs0), ok, cmd, lo, pos')
  {
    var args: seq<Span>, redirs := [], redirs0;
    var round := Next;
    cmd, pos' := Exec([]), pos;
    assert args + Files(redirs) == Files(redirs0);
    while round == Next
      invariant pos <= pos' <= |s| && (!round.Bad? ==> |args| < MAXARGS && Spans(s, args + Files(redirs), lo, pos'))
      invariant ShellGrammar.ParseArgs(Tokens(s, pos), [], redirs0) ==
        match round
        case Next => ShellGrammar.ParseArgs(Tokens(s, pos'), args, redirs)
        case Stop => Done(Wrap(Exec(args), redirs), Tokens(s, pos'))
        case Bad => Fail
      decreases |s| - pos', round == Next
    {
      round, args, redirs, pos' := ParseArg(s, pos', args, redirs, lo);
    }
    ok := round == Stop;
    if ok {
      cmd := Wrap(Exec(args), redirs);
      WrapWords(Exec(args), redirs);
    }
  }

  method ParseBlock(s: string, pos: nat) returns (ok: bool, cmd: Cmd, pos': nat)
    requires IsLine(s) && pos <= |s|
    ensures pos <= pos' <= |s| && Agrees(s, ShellGrammar.ParseBlock(Tokens(s, pos)), ok, cmd, pos, pos')
    decreases |s| - pos, 0
  {
    cmd := Exec([]);
    var p, open := Peek(s, pos, "(");
    if !open {
      return false, cmd, p;
    }
    var got, p1 := GetToken(s, p);
    assert Tokens(s, pos)[1..] == Tokens(s, p1);
    ok, cmd, pos' := ParseLine(s, p1);
    if !ok {
      return;
    }
    var p2, close := Peek(s, pos', ")");
    if !close {
      return false, cmd, p2;
    }
    var got3, p3 := GetToken(s, p2);
    assert Tokens(s, p2)[1..] == Tokens(s, p3);
    var redirs, p4;
    ghost var more;
    ok, redirs, p4, more := ParseRedirs(s, p3, []);
    if ok {
      assert redirs == more;
      WrapWords(cmd, redirs);
      SpansJoin(s, Words(cmd), Files(more), p1, pos', p3, p4);
      SpansWider(s, Words(cmd) + Files(more), p1, p4, pos, p4);
    }
    cmd, pos' := Wrap(cmd, redirs), p4;
  }

  method ParsePipe(s: string, pos: nat) returns (ok: bool, cmd: Cmd, pos': nat)
    requires IsLine(s) && pos <= |s|
    ensures pos <= pos' <= |s| && Agrees(s, ShellGrammar.ParsePipe(Tokens(s, pos)), ok, cmd, pos, pos')
    decreases |s| - pos, 2
  {
    var left, p1;
    ok, left, p1 := ParseExec(s, pos);
    cmd, pos' := left, p1;
    if !ok {
      return;
    }
    var p2, bar := Peek(s, p1, "|");
    if !bar {
      SpansWider(s, Words(cmd), pos, p1, pos, p2);
      return true, cmd, p2;
    }
    var got, p3 := GetToken(s, p2);
    assert Tokens(s, p2)[1..] == Tokens(s, p3);
    var right;
    ok, right, pos' := ParsePipe(s, p3);
    cmd := Pipe(left, right);
    if ok { SpansJoin(s, Words(left), Words(right), pos, p1, p3, pos'); }
  }

  // The & loop of parseline.
  method ParseAmps(s: string, pos: nat, cmd0: Cmd, ghost lo: nat) returns (cmd: Cmd, pos': nat)
    requires IsLine(s) && lo <= pos <= |s| && Good(s, cmd0, lo, pos)
    ensures pos <= pos' <= |s| && Agrees(s, ShellGrammar.ParseAmps(cmd0, Tokens(s, pos)), true, cmd, lo, pos')
  {
    var amp;
    cmd := cmd0;
    pos', amp := Peek(s, pos, "&");
    SpansWider(s, Words(cmd), lo, pos, lo, pos');
    while amp
      invariant pos <= pos' <= |s| && Good(s, cmd, lo, pos')
      invariant amp <==> Starts(Tokens(s, pos'), '&')
      invariant ShellGrammar.ParseAmps(cmd0, Tokens(s, pos)) == ShellGrammar.ParseAmps(cmd, Tokens(s, pos'))
      decreases |s| - pos', amp
    {
      var got, p1 := GetToken(s, pos');
      assert Tokens(s, pos')[1..] == Tokens(s, p1);
      cmd := Back(cmd);
      var p2;
      p2, amp := Peek(s, p1, "&");
      SpansWider(s, Words(cmd), lo, pos', lo, p2);
      pos' := p2;
    }
  }

  method ParseLine(s: string, pos: nat) returns (ok: bool, cmd: Cmd, pos': nat)
    requires IsLine(s) && pos <= |s|
    ensures pos <= pos' <= |s| && Agrees(s, ShellGrammar.ParseLine(Tokens(s, pos)), ok, cmd, pos, pos')
    decreases |s| - pos, 3
  {
    ok, cmd, pos' := ParsePipe(s, pos);
    if !ok {
      return;
    }
    var left, p1 := ParseAmps(s, pos', cmd, pos);
    var p2, semi := Peek(s, p1, ";");
    SpansWider(s, Words(left), pos, p1, pos, p2);
    cmd, pos' := left, p2;
    if semi {
      var got, p3 := GetToken(s, p2);
      assert Tokens(s, p2)[1..] == Tokens(s, p3);
      var right;
      ok, right, pos' := ParseLine(s, p3);
      cmd := List(left, right);
      if ok { SpansJoin(s, Words(left), Words(right), pos, p2, p3, pos'); }
    }
  }

  // ---------------------------------------------------------- nulterminate

  // Position k is just behind one of the words.
  ghost predicate Behind(ws: seq<Span>, k: int) {
    exists i | 0 <= i < |ws| :: ws[i].eq == k
  }

  // The buffer with a NUL behind every word.
  ghost predicate Terminated(before: seq<char>, after: seq<char>, ws: seq<Span>) {
    |after| == |before| && forall k | 0 <= k < |before| :: after[k] == if Behind(ws, k) then NUL else before[k]
  }

  lemma TerminatedJoin(b0: seq<char>, b1: seq<char>, b2: seq<char>, v: seq<Span>, w: seq<Span>)
    requires Terminated(b0, b1, v) && Terminated(b1, b2, w)
    ensures Terminated(b0, b2, v + w)
  {
    forall k ensures Behind(v + w, k) <==> Behind(v, k) || Behind(w, k) {
      if Behind(v, k) {
        var i :| 0 <= i < |v| && v[i].eq == k;
        assert (v + w)[i].eq == k;
      }
      if Behind(w, k) {
        var i :| 0 <= i < |w| && w[i].eq == k;
        assert (v + w)[|v| + i].eq == k;
      }
    }
  }

  predicate Inside(ws: seq<Span>, n: nat) {
    forall i | 0 <= i < |ws| :: ws[i].eq < n
  }

  method Nulterminate(cmd: Cmd, buf: array<char>)
    requires Inside(Words(cmd), buf.Length)
    modifies buf
    ensures Terminated(old(buf[..]), buf[..], Words(cmd))
    decreases cmd
  {
    ghost var b0 := buf[..];
    match cmd
    case Exec(args) =>
      var i := 0;
      assert Terminated(b0, buf[..], args[..0]);
      while i < |args|
        invariant 0 <= i <= |args| && Terminated(b0, buf[..], args[..i])
      {
        ghost var b1 := buf[..];
        buf[args[i].eq] := NUL;
        TerminateOne(b1, buf[..], args[i]);
        TerminatedJoin(b0, b1, buf[..], args[..i], [args[i]]);
        assert args[..i] + [args[i]] == args[..i + 1];
        i := i + 1;
      }
      assert args[..i] == args;
    case Redir(c, file, mode) =>
      assert Words(cmd)[|Words(c)|] == file;
      InsideLeft(Words(c), [file], buf.Length);
      Nulterminate(c, buf);
      ghost var b1 := buf[..];
      buf[file.eq] := NUL;
      TerminateOne(b1, buf[..], file);
      TerminatedJoin(b0, b1, buf[..], Words(c), [file]);
    case Pipe(l, r) =>
      InsideLeft(Words(l), Words(r), buf.Length);
      Nulterminate(l, buf);
      ghost var b1 := buf[..];
      Nulterminate(r, buf);
      TerminatedJoin(b0, b1, buf[..], Words(l), Words(r));
    case List(l, r) =>
      InsideLeft(Words(l), Words(r), buf.Length);
      Nulterminate(l, buf);
      ghost var b1 := buf[..];
      Nulterminate(r, buf);
      TerminatedJoin(b0, b1, buf[..], Words(l), Words(r));
    case Back(c) =>
      Nulterminate(c, buf);
  }

  lemma TerminateOne(before: seq<char>, after: seq<char>, w: Span)
    requires w.eq < |before| && after == before[w.eq := NUL]
    ensures Terminated(before, after, [w])
  {
    assert [w][0].eq == w.eq;
  }

  lemma InsideLeft(v: seq<Span>, w: seq<Span>, n: nat)
    requires Inside(v + w, n)
    ensures Inside(v, n) && Inside(w, n)
  {
    forall i | 0 <= i < |v| ensures v[i].eq < n { assert (v + w)[i] == v[i]; }
    forall i | 0 <= i < |w| ensures w[i].eq < n { assert (v + w)[|v| + i] == w[i]; }
  }

  // ---------------------------------------------------------- the main result

  // The C string that starts at q holds exactly t.
  ghost predicate Reads(buf: seq<char>, q: nat, t: string) {
    && q + |t| < |buf| && buf[q + |t|] == NUL
    && forall i | 0 <= i < |t| :: buf[q + i] == t[i] != NUL
  }

  // No NUL falls inside a word, so each word reads back as its original text.
  lemma ReadBack(s: string, ws: seq<Span>, after: seq<char>, i: nat)
    requires IsLine(s) && Spans(s, ws, 0, |s|) && Terminated(s + [NUL], after, ws) && i < |ws|
    ensures Reads(after, ws[i].q, s[ws[i].q..ws[i].eq])
  {
    var w := ws[i];
    assert Behind(ws, w.eq);
    forall k | w.q <= k < w.eq ensures !Behind(ws, k) {
      assert Plain(s[k]);
    }
  }

  // parsecmd, on a buffer that holds the line and its NUL.  It accepts exactly the lines whose
  // tokens denote a command, and yields that command; the words are non-empty, disjoint spans, each
  // command has fewer than MAXARGS of them, and each reads back from the buffer as its original text.
  method ParseCmd(s: string, buf: array<char>) returns (ok: bool, cmd: Cmd)
    requires IsLine(s) && buf[..] == s + [NUL]
    modifies buf
    ensures forall c :: Denotes(LINE, Tokens(s, 0), c) <==> ok && c == cmd
    ensures !ok ==> buf[..] == s + [NUL]
    ensures ok ==> Spans(s, Words(cmd), 0, |s|) && FewArgs(cmd)
    ensures ok ==> forall i | 0 <= i < |Words(cmd)| ::
      Reads(buf[..], Words(cmd)[i].q, s[Words(cmd)[i].q..Words(cmd)[i].eq])
  {
    var pos;
    ok, cmd, pos := ParseLine(s, 0);
    var pos1, any := Peek(s, pos, "");
    ok := ok && pos1 == |s|;
    forall c ensures Denotes(LINE, Tokens(s, 0), c) <==> ok && c == cmd {
      ParsesIff(Tokens(s, 0), c);
    }
    if ok {
      SpansWider(s, Words(cmd), 0, pos, 0, |s|);
      Nulterminate(cmd, buf);
      forall i | 0 <= i < |Words(cmd)| ensures Reads(buf[..], Words(cmd)[i].q, s[Words(cmd)[i].q..Words(cmd)[i].eq]) {
        ReadBack(s, Words(cmd), buf[..], i);
      }
    }
  }
}
