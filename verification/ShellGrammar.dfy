/**
 The command language of sh.c on tokens: a small functional parser, a grammar that says what
 token sequences mean, which the parser decides, and a printer that it inverts.
 */
module ShellGrammar {

  const MAXARGS := 10

  // text[q..eq]
  datatype Span = Span(q: nat, eq: nat)

  datatype Mode = Input | Output | Append

  datatype Cmd =
    | Exec(args: seq<Span>)
    | Redir(cmd: Cmd, file: Span, mode: Mode)
    | Pipe(left: Cmd, right: Cmd)
    | List(left: Cmd, right: Cmd)
    | Back(cmd: Cmd)

  datatype Token = Word(w: Span) | Symbol(c: char)      // '+' stands for >>

  datatype Redirection = Redirection(file: Span, mode: Mode)

  // cmd inside its redirections, the last outermost.
  function Wrap(cmd: Cmd, redirs: seq<Redirection>): Cmd {
    if redirs == [] then cmd
    else Redir(Wrap(cmd, redirs[..|redirs| - 1]), redirs[|redirs| - 1].file, redirs[|redirs| - 1].mode)
  }

  // Every command has fewer than MAXARGS words.
  predicate FewArgs(cmd: Cmd) {
    match cmd
    case Exec(args) => |args| < MAXARGS
    case Redir(c, file, mode) => FewArgs(c)
    case Pipe(l, r) => FewArgs(l) && FewArgs(r)
    case List(l, r) => FewArgs(l) && FewArgs(r)
    case Back(c) => FewArgs(c)
  }

  // ------------------------------------------------------------- parsing

  datatype Out<T> = Fail | Done(v: T, rest: seq<Token>)

  predicate Starts(ts: seq<Token>, c: char) {
    ts != [] && ts[0] == Symbol(c)
  }

  predicate StartsRedir(ts: seq<Token>) {
    Starts(ts, '<') || Starts(ts, '>') || Starts(ts, '+')
  }

  // What ends a simple command.
  predicate Stops(ts: seq<Token>) {
    ts == [] || Starts(ts, '|') || Starts(ts, ')') || Starts(ts, '&') || Starts(ts, ';')
  }

  function ModeOf(c: char): Mode {
    if c == '<' then Input else if c == '>' then Output else Append
  }

  function ParseRedirs(ts: seq<Token>, redirs: seq<Redirection>): (r: Out<seq<Redirection>>)
    ensures r.Done? ==> |r.rest| <= |ts| && !StartsRedir(r.rest)
  {
    if !StartsRedir(ts) then Done(redirs, ts)
    else if |ts| < 2 || !ts[1].Word? then Fail
    else ParseRedirs(ts[2..], redirs + [Redirection(ts[1].w, ModeOf(ts[0].c))])
  }

  function ParseArgs(ts: seq<Token>, args: seq<Span>, redirs: seq<Redirection>): (r: Out<Cmd>)
    ensures r.Done? ==> |r.rest| <= |ts| && Stops(r.rest)
    decreases |ts|
  {
    if Stops(ts) then Done(Wrap(Exec(args), redirs), ts)
    else if !ts[0].Word? || |args| + 1 >= MAXARGS then Fail
    else
      match ParseRedirs(ts[1..], redirs)
      case Fail => Fail
      case Done(redirs', rest) => ParseArgs(rest, args + [ts[0].w], redirs')
  }

  function ParseExec(ts: seq<Token>): (r: Out<Cmd>)
    ensures r.Done? ==> |r.rest| <= |ts|
    decreases |ts|, 1
  {
    if Starts(ts, '(') then ParseBlock(ts)
    else
      match ParseRedirs(ts, [])
      case Fail => Fail
      case Done(redirs, rest) => ParseArgs(rest, [], redirs)
  }

  function ParseBlock(ts: seq<Token>): (r: Out<Cmd>)
    ensures r.Done? ==> |r.rest| <= |ts|
    decreases |ts|, 0
  {
    if !Starts(ts, '(') then Fail
    else
      match ParseLine(ts[1..])
      case Fail => Fail
      case Done(cmd, rest) =>
        if !Starts(rest, ')') then Fail
        else
          match ParseRedirs(rest[1..], [])
          case Fail => Fail
          case Done(redirs, rest') => Done(Wrap(cmd, redirs), rest')
  }

  function ParsePipe(ts: seq<Token>): (r: Out<Cmd>)
    ensures r.Done? ==> |r.rest| <= |ts|
    decreases |ts|, 2
  {
    match ParseExec(ts)
    case Fail => Fail
    case Done(left, rest) =>
      if !Starts(rest, '|') then Done(left, rest)
      else
        match ParsePipe(rest[1..])
        case Fail => Fail
        case Done(right, rest') => Done(Pipe(left, right), rest')
  }

  function ParseAmps(cmd: Cmd, ts: seq<Token>): (r: Out<Cmd>)
    ensures r.Done? && |r.rest| <= |ts|
    decreases |ts|
  {
    if Starts(ts, '&') then ParseAmps(Back(cmd), ts[1..]) else Done(cmd, ts)
  }

  function ParseBack(ts: seq<Token>): (r: Out<Cmd>)
    ensures r.Done? ==> |r.rest| <= |ts|
    decreases |ts|, 3
  {
    match ParsePipe(ts)
    case Fail => Fail
    case Done(cmd, rest) => ParseAmps(cmd, rest)
  }

  function ParseLine(ts: seq<Token>): (r: Out<Cmd>)
    ensures r.Done? ==> |r.rest| <= |ts|
    decreases |ts|, 4
  {
    match ParseBack(ts)
    case Fail => Fail
    case Done(left, rest) =>
      if !Starts(rest, ';') then Done(left, rest)
      else
        match ParseLine(rest[1..])
        case Fail => Fail
        case Done(right, rest') => Done(List(left, right), rest')
  }

  // ------------------------------------------------------------ printing

  // The levels of the grammar, and the one at which a command needs no parentheses.
  const LINE := 0
  const BACK := 1
  const PIPE := 2
  const ATOM := 3

  function Level(cmd: Cmd): nat {
    match cmd
    case List(_, _) => LINE
    case Back(_) => BACK
    case Pipe(_, _) => PIPE
    case _ => ATOM
  }

  function SymbolOf(mode: Mode): char {
    match mode
    case Input => '<'
    case Output => '>'
    case Append => '+'
  }

  function PrintWords(args: seq<Span>): (r: seq<Token>)
    ensures |r| == |args|
  {
    if args == [] then [] else [Word(args[0])] + PrintWords(args[1..])
  }

  function PrintRedirs(redirs: seq<Redirection>): seq<Token> {
    if redirs == [] then []
    else [Symbol(SymbolOf(redirs[0].mode)), Word(redirs[0].file)] + PrintRedirs(redirs[1..])
  }

  // cmd without its outer redirections, and these.
  function Core(cmd: Cmd): (r: Cmd)
    ensures !r.Redir? && (r == cmd || r < cmd)
  {
    if cmd.Redir? then Core(cmd.cmd) else cmd
  }

  function Outer(cmd: Cmd): seq<Redirection> {
    if cmd.Redir? then Outer(cmd.cmd) + [Redirection(cmd.file, cmd.mode)] else []
  }

  // cmd in concrete syntax, with parentheses where its level is too low.
  function Print(level: nat, cmd: Cmd): seq<Token>
    requires level <= ATOM
    decreases cmd, (Level(cmd) - level) % 4
  {
    if level == Level(cmd) then
      match cmd
      case List(l, r) => Print(BACK, l) + [Symbol(';')] + Print(LINE, r)
      case Back(c) => Print(BACK, c) + [Symbol('&')]
      case Pipe(l, r) => Print(ATOM, l) + [Symbol('|')] + Print(PIPE, r)
      case Exec(args) => PrintWords(args)
      case Redir(_, _, _) =>
        if Core(cmd).Exec? then PrintWords(Core(cmd).args) + PrintRedirs(Outer(cmd))
        else [Symbol('(')] + Print(LINE, Core(cmd)) + [Symbol(')')] + PrintRedirs(Outer(cmd))
    else if level == ATOM then [Symbol('(')] + Print(LINE, cmd) + [Symbol(')')]
    else Print(level + 1, cmd)
  }

  // ------------------------------------------------------------- grammar

  predicate IsRedir(ts: seq<Token>) {
    StartsRedir(ts) && |ts| >= 2 && ts[1].Word?
  }

  // Words and redirections in any order: ts lists the words args and the redirections redirs.
  ghost predicate Simple(ts: seq<Token>, args: seq<Span>, redirs: seq<Redirection>)
    decreases |ts|
  {
    if ts == [] then args == [] && redirs == []
    else if ts[0].Word? then args != [] && args[0] == ts[0].w && Simple(ts[1..], args[1..], redirs)
    else
      && IsRedir(ts) && redirs != [] && ts[0] == Symbol(SymbolOf(redirs[0].mode)) && ts[1] == Word(redirs[0].file)
      && Simple(ts[2..], args, redirs[1..])
  }

  // ts is a command line, a command with its &s, a pipeline, or a command in parentheses or of words
  // alone, and means cmd:
  //   LINE ::= BACK | BACK ; LINE      BACK ::= PIPE | BACK &      PIPE ::= ATOM | ATOM '|' PIPE
  //   ATOM ::= words and redirections | ( LINE ) redirections
  ghost predicate Denotes(level: nat, ts: seq<Token>, cmd: Cmd)
    requires level <= ATOM
    decreases |ts|, ATOM - level + 1
  {
    if level == ATOM then
      || (Core(cmd).Exec? && |Core(cmd).args| < MAXARGS && Simple(ts, Core(cmd).args, Outer(cmd)))
      || exists k: nat, c: Cmd, redirs: seq<Redirection> :: InBlock(ts, k, c, redirs, cmd)
    else
      || Denotes(level + 1, ts, cmd)
      || (level == LINE && cmd.List? && exists k: nat :: Joined(LINE, ts, k, ';', cmd.left, cmd.right))
      || (level == BACK && cmd.Back? && Ends(ts, '&') && Denotes(BACK, ts[..|ts| - 1], cmd.cmd))
      || (level == PIPE && cmd.Pipe? && exists k: nat :: Joined(PIPE, ts, k, '|', cmd.left, cmd.right))
  }

  predicate Ends(ts: seq<Token>, c: char) {
    ts != [] && ts[|ts| - 1] == Symbol(c)
  }

  ghost predicate InBlock(ts: seq<Token>, k: nat, c: Cmd, redirs: seq<Redirection>, cmd: Cmd)
    decreases |ts|, 0
  {
    && 0 < k < |ts| && ts[0] == Symbol('(') && ts[k] == Symbol(')')
    && Denotes(LINE, ts[1..k], c) && Simple(ts[k + 1..], [], redirs) && cmd == Wrap(c, redirs)
  }

  ghost predicate Joined(level: nat, ts: seq<Token>, k: nat, c: char, l: Cmd, r: Cmd)
    requires level < ATOM
    decreases |ts|, 0
  {
    k < |ts| && ts[k] == Symbol(c) && Denotes(level + 1, ts[..k], l) && Denotes(level, ts[k + 1..], r)
  }

  // ------------------------------------------- what is parsed has its meaning

  lemma {:induction false} SimpleJoin(a: seq<Token>, as1: seq<Span>, rs1: seq<Redirection>,
                                      b: seq<Token>, as2: seq<Span>, rs2: seq<Redirection>)
    requires Simple(a, as1, rs1) && Simple(b, as2, rs2)
    ensures Simple(a + b, as1 + as2, rs1 + rs2)
    decreases |a|
  {
    if a == [] {
      assert a + b == b && as1 + as2 == as2 && rs1 + rs2 == rs2;
    } else if a[0].Word? {
      SimpleJoin(a[1..], as1[1..], rs1, b, as2, rs2);
      assert (a + b)[1..] == a[1..] + b && (as1 + as2)[1..] == as1[1..] + as2;
    } else {
      SimpleJoin(a[2..], as1, rs1[1..], b, as2, rs2);
      assert (a + b)[2..] == a[2..] + b && (rs1 + rs2)[1..] == rs1[1..] + rs2;
    }
  }

  // A parser that read a command off ts left a tail of it.
  ghost predicate Tail(ts: seq<Token>, n: nat, rest: seq<Token>) {
    n <= |ts| && rest == ts[n..]
  }

  lemma {:induction false} RedirsMean(ts: seq<Token>, acc: seq<Redirection>) returns (n: nat, more: seq<Redirection>)
    requires ParseRedirs(ts, acc).Done?
    ensures Tail(ts, n, ParseRedirs(ts, acc).rest) && Simple(ts[..n], [], more)
    ensures ParseRedirs(ts, acc).v == acc + more
    decreases |ts|
  {
    if !StartsRedir(ts) {
      n, more := 0, [];
    } else {
      var r := Redirection(ts[1].w, ModeOf(ts[0].c));
      n, more := RedirsMean(ts[2..], acc + [r]);
      assert ts[..n + 2][2..] == ts[2..][..n] && ([r] + more)[1..] == more;
      assert acc + [r] + more == acc + ([r] + more);
      n, more := n + 2, [r] + more;
    }
  }

  // One round of the word loop.
  lemma ArgStep(ts: seq<Token>, args: seq<Span>, redirs: seq<Redirection>, w: Span, more: seq<Token>,
                redirs': seq<Redirection>, rest: seq<Token>)
    requires !Stops(ts) && ts[0] == Word(w) && more == ts[1..] && |args| + 1 < MAXARGS
    requires ParseRedirs(more, redirs) == Done(redirs', rest)
    ensures ParseArgs(ts, args, redirs) == ParseArgs(rest, args + [w], redirs')
  {
  }

  lemma ArgNeeds(ts: seq<Token>, args: seq<Span>, redirs: seq<Redirection>)
    returns (w: Span, more: seq<Token>, redirs': seq<Redirection>, rest: seq<Token>)
    requires !Stops(ts) && ParseArgs(ts, args, redirs).Done?
    ensures ts[0] == Word(w) && more == ts[1..] && |args| + 1 < MAXARGS
    ensures ParseRedirs(more, redirs) == Done(redirs', rest)
  {
    w, more := ts[0].w, ts[1..];
    redirs', rest := ParseRedirs(more, redirs).v, ParseRedirs(more, redirs).rest;
  }

  lemma {:induction false} ArgsMean(ts: seq<Token>, args: seq<Span>, redirs: seq<Redirection>)
    returns (n: nat, as1: seq<Span>, rs1: seq<Redirection>)
    requires ParseArgs(ts, args, redirs).Done? && |args| < MAXARGS
    ensures Tail(ts, n, ParseArgs(ts, args, redirs).rest) && Simple(ts[..n], as1, rs1)
    ensures ParseArgs(ts, args, redirs).v == Wrap(Exec(args + as1), redirs + rs1) && |args + as1| < MAXARGS
    decreases |ts|
  {
    if Stops(ts) {
      n, as1, rs1 := 0, [], [];
      assert args + [] == args && redirs + [] == redirs;
    } else {
      var w, more, redirs', rest := ArgNeeds(ts, args, redirs);
      ArgStep(ts, args, redirs, w, more, redirs', rest);
      var m, rs := RedirsMean(more, redirs);
      n, as1, rs1 := ArgsMean(rest, args + [w], redirs');
      WordFirst(ts, w, more, m, rs, rest, n, as1, rs1);
      AssocWord(args, w, as1);
      AssocRedirs(redirs, rs, rs1);
      n, as1, rs1 := 1 + m + n, [w] + as1, rs + rs1;
    }
  }

  lemma AssocWord(a: seq<Span>, w: Span, b: seq<Span>)
    ensures a + [w] + b == a + ([w] + b)
  {
  }

  lemma AssocRedirs(a: seq<Redirection>, b: seq<Redirection>, c: seq<Redirection>)
    ensures a + b + c == a + (b + c)
  {
  }

  // A word, its redirections, and the rest of a simple command.
  lemma WordFirst(ts: seq<Token>, w: Span, more: seq<Token>, m: nat, rs: seq<Redirection>, rest: seq<Token>,
                  n: nat, as1: seq<Span>, rs1: seq<Redirection>)
    requires ts != [] && ts[0] == Word(w) && more == ts[1..] && Tail(more, m, rest) && n <= |rest|
    requires Simple(more[..m], [], rs) && Simple(rest[..n], as1, rs1)
    ensures Tail(ts, 1 + m + n, rest[n..]) && Simple(ts[..1 + m + n], [w] + as1, rs + rs1)
  {
    var all := ts[..1 + m + n];
    SimpleJoin(more[..m], [], rs, rest[..n], as1, rs1);
    assert all[1..] == more[..m] + rest[..n];
    assert [] + as1 == as1 && ([w] + as1)[1..] == as1;
  }

  lemma {:induction false} WrapCore(cmd: Cmd, redirs: seq<Redirection>)
    requires !cmd.Redir?
    ensures Core(Wrap(cmd, redirs)) == cmd && Outer(Wrap(cmd, redirs)) == redirs
  {
    if redirs != [] {
      WrapCore(cmd, redirs[..|redirs| - 1]);
    }
  }

  lemma ExecNeeds(ts: seq<Token>) returns (rs: seq<Redirection>, rest: seq<Token>)
    requires !Starts(ts, '(') && ParseExec(ts).Done?
    ensures ParseRedirs(ts, []) == Done(rs, rest) && ParseExec(ts) == ParseArgs(rest, [], rs)
  {
    rs, rest := ParseRedirs(ts, []).v, ParseRedirs(ts, []).rest;
  }

  lemma SimpleDenotes(a: seq<Token>, rs: seq<Redirection>, b: seq<Token>, as1: seq<Span>, rs1: seq<Redirection>)
    requires Simple(a, [], rs) && Simple(b, as1, rs1) && |as1| < MAXARGS
    ensures Denotes(ATOM, a + b, Wrap(Exec(as1), rs + rs1))
  {
    SimpleJoin(a, [], rs, b, as1, rs1);
    assert [] + as1 == as1;
    WrapCore(Exec(as1), rs + rs1);
  }

  lemma SimpleMeans(ts: seq<Token>) returns (n: nat)
    requires !Starts(ts, '(') && ParseExec(ts).Done?
    ensures Tail(ts, n, ParseExec(ts).rest) && Denotes(ATOM, ts[..n], ParseExec(ts).v)
  {
    var rs0, rest := ExecNeeds(ts);
    var m, rs := RedirsMean(ts, []);
    NoneBefore(rs);
    var k, as1, rs1 := ArgsMean(rest, [], rs);
    NoneBefore(as1);
    SimpleSpan(ts, m, rs, rest, k, as1, rs1);
    n := m + k;
  }

  lemma SimpleSpan(ts: seq<Token>, m: nat, rs: seq<Redirection>, rest: seq<Token>, k: nat, as1: seq<Span>,
                   rs1: seq<Redirection>)
    requires Tail(ts, m, rest) && k <= |rest| && |as1| < MAXARGS
    requires Simple(ts[..m], [], rs) && Simple(rest[..k], as1, rs1)
    ensures Tail(ts, m + k, rest[k..]) && Denotes(ATOM, ts[..m + k], Wrap(Exec(as1), rs + rs1))
  {
    SimpleDenotes(ts[..m], rs, rest[..k], as1, rs1);
    Rejoin(ts, m, rest, k);
  }

  lemma NoneBefore<T>(s: seq<T>)
    ensures [] + s == s
  {
  }

  lemma Rejoin(ts: seq<Token>, m: nat, rest: seq<Token>, k: nat)
    requires Tail(ts, m, rest) && k <= |rest|
    ensures ts[..m] + rest[..k] == ts[..m + k] && Tail(ts, m + k, rest[k..])
  {
  }

  lemma BlockNeeds(ts: seq<Token>) returns (c: Cmd, mid: seq<Token>, redirs: seq<Redirection>, rest: seq<Token>)
    requires Starts(ts, '(') && ParseExec(ts).Done?
    ensures ParseLine(ts[1..]) == Done(c, mid) && Starts(mid, ')') && ParseRedirs(mid[1..], []) == Done(redirs, rest)
    ensures ParseExec(ts) == Done(Wrap(c, redirs), rest)
  {
    c, mid := ParseLine(ts[1..]).v, ParseLine(ts[1..]).rest;
    redirs, rest := ParseRedirs(mid[1..], []).v, ParseRedirs(mid[1..], []).rest;
  }

  // The parser of a level reads off ts what denotes the command it yields.
  lemma {:induction false} Means(level: nat, ts: seq<Token>) returns (n: nat)
    requires level <= ATOM && Parse(level, ts).Done?
    ensures Tail(ts, n, Parse(level, ts).rest) && Denotes(level, ts[..n], Parse(level, ts).v)
    decreases |ts|, ATOM - level, 1
  {
    if level == LINE {
      n := LineMeans(ts);
    } else if level == BACK {
      n := Means(PIPE, ts);
      n := AmpsMean(ts, n, ParsePipe(ts).v, ParsePipe(ts).rest);
    } else if level == PIPE {
      n := PipeMeans(ts);
    } else if Starts(ts, '(') {
      n := ParenMeans(ts);
    } else {
      n := SimpleMeans(ts);
    }
  }

  lemma {:induction false} LineMeans(ts: seq<Token>) returns (n: nat)
    requires ParseLine(ts).Done?
    ensures Tail(ts, n, ParseLine(ts).rest) && Denotes(LINE, ts[..n], ParseLine(ts).v)
    decreases |ts|, ATOM - LINE, 0
  {
    n := Means(BACK, ts);
    var left := ParseBack(ts);
    if Starts(left.rest, ';') {
      var right := left.rest[1..];
      var m := Means(LINE, right);
      JoinMeans(LINE, ts, n, ';', left.v, left.rest, m, ParseLine(right).v);
      n := n + 1 + m;
    }
  }

  lemma {:induction false} PipeMeans(ts: seq<Token>) returns (n: nat)
    requires ParsePipe(ts).Done?
    ensures Tail(ts, n, ParsePipe(ts).rest) && Denotes(PIPE, ts[..n], ParsePipe(ts).v)
    decreases |ts|, ATOM - PIPE, 0
  {
    n := Means(ATOM, ts);
    var left := ParseExec(ts);
    if Starts(left.rest, '|') {
      var right := left.rest[1..];
      var m := Means(PIPE, right);
      JoinMeans(PIPE, ts, n, '|', left.v, left.rest, m, ParsePipe(right).v);
      n := n + 1 + m;
    }
  }

  lemma {:induction false} ParenMeans(ts: seq<Token>) returns (n: nat)
    requires Starts(ts, '(') && ParseExec(ts).Done?
    ensures Tail(ts, n, ParseExec(ts).rest) && Denotes(ATOM, ts[..n], ParseExec(ts).v)
    decreases |ts|, 0, 0
  {
    var c, mid, redirs, rest := BlockNeeds(ts);
    n := Means(LINE, ts[1..]);
    var m, more := RedirsMean(mid[1..], []);
    NoneBefore(more);
    BlockMeans(ts, n, c, mid, m, redirs);
    n := n + 2 + m;
  }

  lemma JoinMeans(level: nat, ts: seq<Token>, n: nat, c: char, l: Cmd, mid: seq<Token>, m: nat, r: Cmd)
    requires level < ATOM && Tail(ts, n, mid) && Starts(mid, c) && m <= |mid[1..]|
    requires Denotes(level + 1, ts[..n], l) && Denotes(level, mid[1..][..m], r)
    ensures Tail(ts, n + 1 + m, mid[1..][m..]) && Joined(level, ts[..n + 1 + m], n, c, l, r)
  {
    var all := ts[..n + 1 + m];
    assert all[..n] == ts[..n] && all[n + 1..] == mid[1..][..m] && all[n] == mid[0];
  }

  lemma BlockMeans(ts: seq<Token>, n: nat, c: Cmd, mid: seq<Token>, m: nat, redirs: seq<Redirection>)
    requires Starts(ts, '(') && Tail(ts[1..], n, mid) && Starts(mid, ')') && m <= |mid[1..]|
    requires Denotes(LINE, ts[1..][..n], c) && Simple(mid[1..][..m], [], redirs)
    ensures Tail(ts, n + 2 + m, mid[1..][m..]) && Denotes(ATOM, ts[..n + 2 + m], Wrap(c, redirs))
  {
    var all := ts[..n + 2 + m];
    assert all[1..n + 1] == ts[1..][..n] && all[n + 1] == mid[0] && all[n + 2..] == mid[1..][..m];
    assert InBlock(all, n + 1, c, redirs, Wrap(c, redirs));
  }

  lemma {:induction false} AmpsMean(ts: seq<Token>, n: nat, cmd: Cmd, rest: seq<Token>) returns (n': nat)
    requires Tail(ts, n, rest) && Denotes(BACK, ts[..n], cmd)
    ensures Tail(ts, n', ParseAmps(cmd, rest).rest) && Denotes(BACK, ts[..n'], ParseAmps(cmd, rest).v)
    decreases |rest|
  {
    n' := n;
    if Starts(rest, '&') {
      assert ts[..n + 1][..n] == ts[..n] && ts[n] == rest[0];
      n' := AmpsMean(ts, n + 1, Back(cmd), rest[1..]);
    }
  }

  // ------------------------------------------- what has a meaning is parsed

  // What may follow a command of each level.
  predicate Follows(level: nat, rest: seq<Token>) {
    || rest == [] || Starts(rest, ')')
    || (level >= BACK && (Starts(rest, ';') || Starts(rest, '&')))
    || (level >= ATOM && Starts(rest, '|'))
  }

  // The parser of each level; at level BACK trailing &s belong to the command.
  function Parsed(level: nat, cmd: Cmd, rest: seq<Token>): Out<Cmd> {
    if level == BACK then ParseAmps(cmd, rest) else Done(cmd, rest)
  }

  function Parse(level: nat, ts: seq<Token>): Out<Cmd> {
    if level == LINE then ParseLine(ts) else if level == BACK then ParseBack(ts)
    else if level == PIPE then ParsePipe(ts) else ParseExec(ts)
  }

  lemma RedirStep(c: char, w: Span, rest: seq<Token>, acc: seq<Redirection>)
    requires c == '<' || c == '>' || c == '+'
    ensures ParseRedirs([Symbol(c)] + ([Word(w)] + rest), acc) == ParseRedirs(rest, acc + [Redirection(w, ModeOf(c))])
  {
    var ts := [Symbol(c)] + ([Word(w)] + rest);
    assert ts[1] == Word(w) && ts[2..] == rest;
  }

  // parseredirs takes the leading redirections of a simple command.
  lemma {:induction false} RedirsRead(ts: seq<Token>, args: seq<Span>, redirs: seq<Redirection>, acc: seq<Redirection>,
                                      rest: seq<Token>)
    returns (k: nat, m: nat)
    requires Simple(ts, args, redirs) && !StartsRedir(rest)
    ensures k <= |ts| && m <= |redirs| && Simple(ts[k..], args, redirs[m..]) && !StartsRedir(ts[k..])
    ensures ParseRedirs(ts + rest, acc) == Done(acc + redirs[..m], ts[k..] + rest)
    decreases |ts|
  {
    if !StartsRedir(ts) {
      k, m := 0, 0;
      assert ts[0..] == ts && redirs[0..] == redirs && acc + redirs[..0] == acc;
      assert !StartsRedir(ts + rest) by { if ts == [] { assert ts + rest == rest; } }
    } else {
      var r := redirs[0];
      k, m := RedirsRead(ts[2..], args, redirs[1..], acc + [r], rest);
      RedirBefore(ts, rest, acc);
      RedirSlices(ts, redirs, acc, k, m);
      k, m := k + 2, m + 1;
    }
  }

  lemma RedirBefore(ts: seq<Token>, rest: seq<Token>, acc: seq<Redirection>)
    requires IsRedir(ts)
    ensures ParseRedirs(ts + rest, acc) ==
            ParseRedirs(ts[2..] + rest, acc + [Redirection(ts[1].w, ModeOf(ts[0].c))])
  {
    var all := ts + rest;
    assert all[0] == ts[0] && all[1] == ts[1] && all[2..] == ts[2..] + rest;
  }

  lemma RedirSlices(ts: seq<Token>, redirs: seq<Redirection>, acc: seq<Redirection>, k: nat, m: nat)
    requires k + 2 <= |ts| && m + 1 <= |redirs|
    ensures ts[2..][k..] == ts[k + 2..] && redirs[1..][m..] == redirs[m + 1..]
    ensures acc + [redirs[0]] + redirs[1..][..m] == acc + redirs[..m + 1]
  {
  }

  lemma {:induction false} ArgsRead(ts: seq<Token>, as1: seq<Span>, rs1: seq<Redirection>,
                                    args: seq<Span>, redirs: seq<Redirection>, rest: seq<Token>)
    requires Simple(ts, as1, rs1) && !StartsRedir(ts) && Stops(rest) && |args| + |as1| < MAXARGS
    ensures ParseArgs(ts + rest, args, redirs) == Done(Wrap(Exec(args + as1), redirs + rs1), rest)
    decreases |ts|
  {
    if ts == [] {
      assert ts + rest == rest && args + as1 == args && redirs + rs1 == redirs;
    } else {
      var more, w, as2 := ts[1..], as1[0], as1[1..];
      WordBefore(ts, rest, w, as1);
      var k, m := RedirsRead(more, as2, rs1, redirs, rest);
      var rs2, rs3, left := rs1[..m], rs1[m..], more[k..];
      ArgStep(ts + rest, args, redirs, w, more + rest, redirs + rs2, left + rest);
      ArgsRead(left, as2, rs3, args + [w], redirs + rs2, rest);
      AssocWord(args, w, as2);
      AssocRedirs(redirs, rs2, rs3);
      SplitRedirs(rs1, m);
    }
  }

  lemma WordBefore(ts: seq<Token>, rest: seq<Token>, w: Span, as1: seq<Span>)
    requires ts != [] && ts[0] == Word(w) && as1 != [] && as1[0] == w
    ensures (ts + rest)[1..] == ts[1..] + rest && (ts + rest)[0] == Word(w) && [w] + as1[1..] == as1
  {
  }

  lemma SplitRedirs(rs: seq<Redirection>, m: nat)
    requires m <= |rs|
    ensures rs[..m] + rs[m..] == rs
  {
  }

  lemma SimpleRead(ts: seq<Token>, args: seq<Span>, redirs: seq<Redirection>, rest: seq<Token>)
    requires Simple(ts, args, redirs) && Stops(rest) && |args| < MAXARGS
    ensures ParseExec(ts + rest) == Done(Wrap(Exec(args), redirs), rest)
  {
    var k, m := RedirsRead(ts, args, redirs, [], rest);
    ArgsRead(ts[k..], args, redirs[m..], [], [] + redirs[..m], rest);
    assert [] + redirs[..m] + redirs[m..] == redirs && [] + args == args;
    assert !Starts(ts + rest, '(') by {
      if ts == [] { assert ts + rest == rest; } else { assert (ts + rest)[0] == ts[0]; }
    }
  }

  // The redirections behind a parenthesis.
  lemma RedirsOnly(ts: seq<Token>, redirs: seq<Redirection>, rest: seq<Token>)
    requires Simple(ts, [], redirs) && Stops(rest)
    ensures ParseRedirs(ts + rest, []) == Done(redirs, rest)
  {
    var k, m := RedirsRead(ts, [], redirs, [], rest);
    assert ts[k..] == [] && redirs[m..] == [];
    assert ts[k..] + rest == rest && [] + redirs[..m] == redirs;
  }

  lemma {:induction false} BlockRead(ts: seq<Token>, k: nat, c: Cmd, redirs: seq<Redirection>, cmd: Cmd,
                                     rest: seq<Token>)
    requires InBlock(ts, k, c, redirs, cmd) && Follows(ATOM, rest)
    ensures ParseExec(ts + rest) == Done(cmd, rest)
    decreases |ts|, 0
  {
    var tail := [Symbol(')')] + (ts[k + 1..] + rest);
    Accepts(LINE, ts[1..k], c, tail);
    assert (ts + rest)[1..] == ts[1..k] + tail && tail[1..] == ts[k + 1..] + rest;
    RedirsOnly(ts[k + 1..], redirs, rest);
  }

  // The parser of a level reads whatever denotes a command as that command.
  lemma {:induction false} Accepts(level: nat, ts: seq<Token>, cmd: Cmd, rest: seq<Token>)
    requires level <= ATOM && Denotes(level, ts, cmd) && Follows(level, rest)
    ensures Parse(level, ts + rest) == Parsed(level, cmd, rest)
    decreases |ts|, ATOM - level + 1
  {
    if level == ATOM {
      if Core(cmd).Exec? && |Core(cmd).args| < MAXARGS && Simple(ts, Core(cmd).args, Outer(cmd)) {
        SimpleRead(ts, Core(cmd).args, Outer(cmd), rest);
        CoreWraps(cmd);
      } else {
        var k: nat, c, redirs :| InBlock(ts, k, c, redirs, cmd);
        BlockRead(ts, k, c, redirs, cmd, rest);
      }
    } else if Denotes(level + 1, ts, cmd) {
      Accepts(level + 1, ts, cmd, rest);
    } else if level == LINE {
      var k: nat :| Joined(LINE, ts, k, ';', cmd.left, cmd.right);
      LineRead(ts, k, cmd.left, cmd.right, rest);
    } else if level == BACK {
      BackRead(ts, cmd, rest);
    } else {
      var k: nat :| Joined(PIPE, ts, k, '|', cmd.left, cmd.right);
      PipeRead(ts, k, cmd.left, cmd.right, rest);
    }
  }

  lemma {:induction false} LineRead(ts: seq<Token>, k: nat, l: Cmd, r: Cmd, rest: seq<Token>)
    requires Joined(LINE, ts, k, ';', l, r) && Follows(LINE, rest)
    ensures ParseLine(ts + rest) == Done(List(l, r), rest)
    decreases |ts|, 0
  {
    var tail := [Symbol(';')] + (ts[k + 1..] + rest);
    Accepts(BACK, ts[..k], l, tail);
    Accepts(LINE, ts[k + 1..], r, rest);
    Resplit(ts, k, ';', rest);
  }

  lemma {:induction false} PipeRead(ts: seq<Token>, k: nat, l: Cmd, r: Cmd, rest: seq<Token>)
    requires Joined(PIPE, ts, k, '|', l, r) && Follows(PIPE, rest)
    ensures ParsePipe(ts + rest) == Done(Pipe(l, r), rest)
    decreases |ts|, 0
  {
    var tail := [Symbol('|')] + (ts[k + 1..] + rest);
    Accepts(ATOM, ts[..k], l, tail);
    Accepts(PIPE, ts[k + 1..], r, rest);
    Resplit(ts, k, '|', rest);
  }

  lemma Resplit(ts: seq<Token>, k: nat, c: char, rest: seq<Token>)
    requires k < |ts| && ts[k] == Symbol(c)
    ensures ts + rest == ts[..k] + ([Symbol(c)] + (ts[k + 1..] + rest))
    ensures ([Symbol(c)] + (ts[k + 1..] + rest))[1..] == ts[k + 1..] + rest
  {
  }

  lemma {:induction false} BackRead(ts: seq<Token>, cmd: Cmd, rest: seq<Token>)
    requires cmd.Back? && Ends(ts, '&') && Denotes(BACK, ts[..|ts| - 1], cmd.cmd) && Follows(BACK, rest)
    ensures ParseBack(ts + rest) == ParseAmps(cmd, rest)
    decreases |ts|, 0
  {
    var tail := [Symbol('&')] + rest;
    Accepts(BACK, ts[..|ts| - 1], cmd.cmd, tail);
    assert ts + rest == ts[..|ts| - 1] + tail && tail[1..] == rest;
  }

  // The parser accepts exactly the token sequences that the grammar gives a meaning, with that meaning.
  lemma ParsesIff(ts: seq<Token>, cmd: Cmd)
    ensures ParseLine(ts) == Done(cmd, []) <==> Denotes(LINE, ts, cmd)
  {
    if ParseLine(ts) == Done(cmd, []) {
      var n := Means(LINE, ts);
      assert ts[..n] == ts;
    }
    if Denotes(LINE, ts, cmd) {
      Accepts(LINE, ts, cmd, []);
      assert ts + [] == ts;
    }
  }

  // ---------------------------------------------------------- round trip

  lemma {:induction false} CoreWraps(cmd: Cmd)
    ensures Wrap(Core(cmd), Outer(cmd)) == cmd && FewArgs(Core(cmd)) == FewArgs(cmd)
  {
    if cmd.Redir? {
      CoreWraps(cmd.cmd);
      var rs := Outer(cmd);
      assert rs[..|rs| - 1] == Outer(cmd.cmd);
    }
  }

  lemma {:induction false} PrintedWords(args: seq<Span>)
    ensures Simple(PrintWords(args), args, [])
  {
    if args != [] {
      PrintedWords(args[1..]);
      assert PrintWords(args)[1..] == PrintWords(args[1..]);
    }
  }

  lemma {:induction false} PrintedRedirs(redirs: seq<Redirection>)
    ensures Simple(PrintRedirs(redirs), [], redirs)
  {
    if redirs != [] {
      PrintedRedirs(redirs[1..]);
      assert PrintRedirs(redirs)[2..] == PrintRedirs(redirs[1..]);
      assert ModeOf(SymbolOf(redirs[0].mode)) == redirs[0].mode;
    }
  }

  lemma PrintedBlock(inner: seq<Token>, c: Cmd, redirs: seq<Redirection>, ts: seq<Token>)
    requires Denotes(LINE, inner, c) && ts == [Symbol('(')] + inner + [Symbol(')')] + PrintRedirs(redirs)
    ensures Denotes(ATOM, ts, Wrap(c, redirs))
  {
    var k := |inner| + 1;
    PrintedRedirs(redirs);
    assert ts[1..k] == inner && ts[k] == Symbol(')') && ts[k + 1..] == PrintRedirs(redirs);
    assert InBlock(ts, k, c, redirs, Wrap(c, redirs));
  }

  lemma PrintedJoin(level: nat, a: seq<Token>, c: char, b: seq<Token>, l: Cmd, r: Cmd)
    requires level < ATOM && Denotes(level + 1, a, l) && Denotes(level, b, r)
    ensures Joined(level, a + [Symbol(c)] + b, |a|, c, l, r)
  {
    var ts := a + [Symbol(c)] + b;
    assert ts[..|a|] == a && ts[|a| + 1..] == b;
  }

  lemma PrintedSimple(args: seq<Span>, redirs: seq<Redirection>)
    ensures Simple(PrintWords(args) + PrintRedirs(redirs), args, redirs)
  {
    PrintedWords(args);
    PrintedRedirs(redirs);
    SimpleJoin(PrintWords(args), args, [], PrintRedirs(redirs), [], redirs);
    assert args + [] == args && [] + redirs == redirs;
  }

  // A printed command means that command.
  lemma {:induction false} PrintedDenotes(level: nat, cmd: Cmd)
    requires level <= ATOM && FewArgs(cmd)
    ensures Denotes(level, Print(level, cmd), cmd)
    decreases cmd, (Level(cmd) - level) % 4
  {
    if level == Level(cmd) {
      match cmd
      case List(l, r) =>
        PrintedDenotes(BACK, l);
        PrintedDenotes(LINE, r);
        PrintedJoin(LINE, Print(BACK, l), ';', Print(LINE, r), l, r);
      case Back(c) =>
        PrintedDenotes(BACK, c);
        assert Print(BACK, cmd)[..|Print(BACK, cmd)| - 1] == Print(BACK, c);
      case Pipe(l, r) =>
        PrintedDenotes(ATOM, l);
        PrintedDenotes(PIPE, r);
        PrintedJoin(PIPE, Print(ATOM, l), '|', Print(PIPE, r), l, r);
      case Exec(args) => PrintedWords(args);
      case Redir(_, _, _) => PrintedRedir(cmd);
    } else if level == ATOM {
      PrintedDenotes(LINE, cmd);
      PrintedBlock(Print(LINE, cmd), cmd, [], Print(ATOM, cmd) + PrintRedirs([]));
      assert Print(ATOM, cmd) + PrintRedirs([]) == Print(ATOM, cmd);
    } else {
      PrintedDenotes(level + 1, cmd);
    }
  }

  lemma {:induction false} PrintedRedir(cmd: Cmd)
    requires FewArgs(cmd) && cmd.Redir?
    ensures Denotes(ATOM, Print(ATOM, cmd), cmd)
    decreases cmd, 0, 0
  {
    CoreWraps(cmd);
    if Core(cmd).Exec? {
      PrintedSimple(Core(cmd).args, Outer(cmd));
    } else {
      PrintedDenotes(LINE, Core(cmd));
      PrintedBlock(Print(LINE, Core(cmd)), Core(cmd), Outer(cmd), Print(ATOM, cmd));
    }
  }

  // The parser reads every command back from its printed form.
  lemma RoundTrip(level: nat, cmd: Cmd, rest: seq<Token>)
    requires level <= ATOM && FewArgs(cmd) && Follows(level, rest)
    ensures Parse(level, Print(level, cmd) + rest) == Parsed(level, cmd, rest)
  {
    PrintedDenotes(level, cmd);
    Accepts(level, Print(level, cmd), cmd, rest);
  }
}
