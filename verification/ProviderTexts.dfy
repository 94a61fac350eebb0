/** Which addresses are accepted, told by the characters of their parts. An address without brackets is a scheme,
    a host, a port or none, and a path; it is accepted exactly when each of these fits and the whole does not look
    like a credential. A host is told by the pieces between its dots, a path by the segments between its slashes,
    letters and digits by their numbers. What is accepted is stored in small letters, without a default port and
    without slashes at its end. */
module ProviderTexts {
  import opened Decimals
  import opened Results
  import opened ProviderUrls
  import opened ProviderNormal

  // --- Pieces between separators ---

  /** The piece stands in the text, with a separator or an end on either side and none within. */
  ghost predicate PieceAt(text: string, c: char, piece: string, i: nat) {
    && i + |piece| <= |text| && text[i..i + |piece|] == piece && c !in piece
    && (i == 0 || text[i - 1] == c) && (i + |piece| == |text| || text[i + |piece|] == c)
  }

  ghost predicate HasPiece(text: string, c: char, piece: string) {
    exists i: nat :: PieceAt(text, c, piece, i)
  }

  lemma FirstPiece(text: string, c: char, piece: string)
    requires PieceAt(text, c, piece, 0)
    ensures piece == text[..Find(text, c)]
  {
    FindIs(text, c, |piece|);
  }

  lemma LaterPiece(text: string, c: char, piece: string, k: nat, i: nat)
    requires 0 < k <= |text| && text[k - 1] == c
    ensures PieceAt(text, c, piece, k + i) <==> PieceAt(text[k..], c, piece, i)
  {
    if k + i + |piece| <= |text| {
      assert text[k..][i..i + |piece|] == text[k + i..k + i + |piece|];
    }
  }

  lemma NotWithin(text: string, c: char, piece: string, i: nat)
    requires 0 < i <= Find(text, c)
    ensures !PieceAt(text, c, piece, i)
  {
    var f := Find(text, c);
    assert text[i - 1] == text[..f][i - 1] && text[..f][i - 1] in text[..f];
  }

  lemma FirstOrLater(text: string, c: char, piece: string, i: nat)
    requires c in text && PieceAt(text, c, piece, i)
    ensures piece == text[..Find(text, c)] || HasPiece(text[Find(text, c) + 1..], c, piece)
  {
    hide PieceAt;
    var f := Find(text, c);
    if i == 0 {
      FirstPiece(text, c, piece);
    } else if i <= f {
      NotWithin(text, c, piece, i);
    } else {
      LaterPiece(text, c, piece, f + 1, i - f - 1);
    }
  }

  lemma HasLaterPiece(text: string, c: char, piece: string)
    requires c in text
    ensures HasPiece(text, c, piece) <==>
            piece == text[..Find(text, c)] || HasPiece(text[Find(text, c) + 1..], c, piece)
  {
    hide PieceAt, Find;
    var rest := text[Find(text, c) + 1..];
    FirstIsPiece(text, c);
    if i: nat :| PieceAt(text, c, piece, i) {
      FirstOrLater(text, c, piece, i);
    }
    if i: nat :| PieceAt(rest, c, piece, i) {
      LaterPiece(text, c, piece, Find(text, c) + 1, i);
    }
  }

  lemma HasOnePiece(text: string, c: char, piece: string)
    requires c !in text
    ensures HasPiece(text, c, piece) <==> piece == text
  {
    hide PieceAt;
    FirstIsPiece(text, c);
    assert text[..Find(text, c)] == text;
    if i: nat :| PieceAt(text, c, piece, i) {
      PieceWithin(text, c, piece, i);
      if i == 0 {
        FirstPiece(text, c, piece);
      } else {
        NotWithin(text, c, piece, i);
      }
    }
  }

  /** The parts of a split text are its pieces. */
  lemma {:induction false} SplitRead(text: string, c: char, piece: string)
    ensures piece in SplitOn(text, c) <==> HasPiece(text, c, piece)
  {
    hide HasPiece, Find;
    if c in text {
      HasLaterPiece(text, c, piece);
      SplitRead(text[Find(text, c) + 1..], c, piece);
    } else {
      HasOnePiece(text, c, piece);
    }
  }

  lemma FirstIsPiece(text: string, c: char)
    ensures PieceAt(text, c, text[..Find(text, c)], 0)
  {}

  lemma PieceWithin(text: string, c: char, piece: string, i: nat)
    requires PieceAt(text, c, piece, i)
    ensures i <= |text|
  {}

  // --- Characters, by their numbers ---

  /** Capital letters become small ones, and nothing else changes. */
  lemma LowerRead(c: char)
    ensures LowerChar(c) as int == if 65 <= c as int <= 90 then c as int + 32 else c as int
  {}

  ghost predicate IsSmallOrDigit(c: char) {
    97 <= c as int <= 122 || 48 <= c as int <= 57
  }

  /** A label has one to sixty-three small letters, digits and inner hyphens. */
  ghost predicate NamesLabel(s: string) {
    && 1 <= |s| <= 63 && s[0] != '-' && s[|s| - 1] != '-'
    && forall i :: 0 <= i < |s| ==> IsSmallOrDigit(s[i]) || s[i] == '-'
  }

  ghost predicate NamesHost(s: string) {
    1 <= |s| <= 253 && forall piece :: HasPiece(s, '.', piece) ==> NamesLabel(piece)
  }

  lemma LabelRead(s: string)
    ensures IsLabel(s) <==> NamesLabel(s)
  {
    if NamesLabel(s) {
      assert forall c <- s :: IsSmallOrDigit(c) || c == '-';
    }
    assert forall i :: 0 <= i < |s| ==> s[i] in s;
  }

  lemma HostRead(s: string)
    ensures IsHostName(s) <==> NamesHost(s)
  {
    hide IsLabel, NamesLabel, HasPiece;
    forall piece ensures (piece in SplitOn(s, '.') <==> HasPiece(s, '.', piece))
    && (IsLabel(piece) <==> NamesLabel(piece)) {
      SplitRead(s, '.', piece);
      LabelRead(piece);
    }
  }

  /** A path has no escapes, no empty segment inside and no segment that means this or the parent directory. */
  lemma PathRead(path: string)
    ensures PathAllowed(path) <==>
            && '%' !in path && (forall i :: 0 <= i < |path| - 1 ==> path[i] != '/' || path[i + 1] != '/')
            && !HasPiece(path, '/', ".") && !HasPiece(path, '/', "..")
  {
    hide HasPiece;
    SplitRead(path, '/', ".");
    SplitRead(path, '/', "..");
  }

  /** Slashes at the end are dropped, and nothing else. */
  lemma {:induction false} StripRead(path: string)
    ensures var kept := StripRight(path, '/');
            && kept <= path && (forall i :: |kept| <= i < |path| ==> path[i] == '/')
            && (kept != "" ==> kept[|kept| - 1] != '/')
  {
    if path != "" && path[|path| - 1] == '/' {
      StripRead(path[..|path| - 1]);
      assert forall i :: 0 <= i < |path| - 1 ==> path[..|path| - 1][i] == path[i];
    }
  }

  // --- Which texts are accepted ---

  /** An address as it is written: the port is what stands after a colon. */
  datatype Written = Written(scheme: string, host: string, port: Option<string>, path: string) {
    function Netloc(): string {
      host + if port.Some? then ":" + port.value else ""
    }

    function Text(): string {
      scheme + "://" + Netloc() + path
    }
  }

  /** The text falls into these parts, and the host is not in brackets. */
  ghost predicate Parted(w: Written) {
    && IsLetters(w.scheme) && w.host != "" && Plain(w.host) && Plain(w.path) && (w.path == "" || w.path[0] == '/')
    && (forall c <- w.host :: c != ':' && c != '/' && c != '[' && c != ']' && c != '@' && c != '%')
    && (w.port.Some? ==>
        Plain(w.port.value) && forall c <- w.port.value :: c != '/' && c != '[' && c != ']' && c != '@')
  }

  ghost predicate PortFits(text: string) {
    text != "" && (forall c <- text :: 48 <= c as int <= 57) && 1 <= ReadDecimal(text) <= 65_535
  }

  /** A scheme, a host that is a name or this machine's number, a port and a path that may be approved. */
  ghost predicate Fits(lib: Library, w: Written) {
    var scheme, host := Lower(w.scheme), Lower(w.host);
    && (scheme == "https" || (scheme == "http" && host == "127.0.0.1"))
    && NamesHost(host) && host != "localhost"
    && !(|host| >= 10 && host[|host| - 10..] == ".localhost")
    && (lib.isIp(host) ==> host == "127.0.0.1")
    && (w.port.Some? ==> PortFits(w.port.value))
    && '%' !in w.path && (forall i :: 0 <= i < |w.path| - 1 ==> w.path[i] != '/' || w.path[i + 1] != '/')
    && !HasPiece(w.path, '/', ".") && !HasPiece(w.path, '/', "..")
  }

  lemma NetlocPlainText(w: Written)
    requires Parted(w)
    ensures Plain(w.Netloc()) && w.Netloc() != ""
    ensures '/' !in w.Netloc() && '@' !in w.Netloc() && '[' !in w.Netloc() && ']' !in w.Netloc()
  {
    hide PlainChar, IsLetters;
    var suffix := if w.port.Some? then ":" + w.port.value else "";
    ColonPlain();
    forall c | c in w.Netloc() ensures PlainChar(c) && c != '/' && c != '@' && c != '[' && c != ']' {
      assert c in w.host || c in suffix;
      assert c in suffix ==> c == ':' || (w.port.Some? && c in w.port.value);
    }
  }

  lemma ColonPlain()
    ensures PlainChar(':')
  {}

  lemma HostAndPort(w: Written)
    requires Parted(w) && '[' !in w.Netloc()
    ensures HostText(w.Netloc()) == w.host && PortText(w.Netloc()) == if w.port.Some? then w.port.value else ""
  {
    hide Plain, IsLetters, Find;
    assert ':' !in w.host;
    if w.port.Some? {
      AfterFirstOf(w.host, ':', w.port.value);
      assert w.Netloc() == w.host + ":" + w.port.value;
    } else {
      assert w.Netloc() == w.host && UpTo(w.host, ':') == w.host;
    }
  }

  lemma WholeHost(w: Written)
    requires Parted(w) && HostText(w.Netloc()) == w.host
    ensures HostOf(w.Netloc()) == Lower(w.host)
  {
    hide Plain, IsLetters, HostText, Lower;
    assert '%' !in w.host;
    assert UpTo(w.host, '%') == w.host;
  }

  lemma ColonLast(w: Written)
    requires Parted(w)
    ensures w.port == Some("") ==> EndsWith(w.Netloc(), ":")
    ensures EndsWith(w.Netloc(), ":") ==> w.port.Some? && !PortFits(w.port.value)
  {
    hide Plain, IsLetters;
    var s := w.Netloc();
    assert s[|s| - 1..] == [s[|s| - 1]];
    assert w.port.None? ==> s == w.host && s[|s| - 1] in w.host;
    if w.port.Some? && w.port.value != "" {
      assert s[|s| - 1] == w.port.value[|w.port.value| - 1] && w.port.value[|w.port.value| - 1] in w.port.value;
    }
  }

  lemma PortRead(text: string)
    requires text != ""
    ensures PortReads(text) && PortOf(text) != Some(0) <==> PortFits(text)
  {
    hide ReadDecimal;
    forall c | c in text ensures IsDigit(c) <==> 48 <= c as int <= 57 {}
    if AllDigits(text) {
      DecimalShortest(text);
    }
  }

  lemma AllowedRead(lib: Library, scheme: string, w: Written)
    requires Sane(lib) && HostOf(w.Netloc()) == Lower(w.host) && w.host != "" && ':' !in w.host
    ensures HostAllowed(lib, scheme, w.Netloc()) <==>
            var host := Lower(w.host);
            && NamesHost(host) && host != "localhost" && !(|host| >= 10 && host[|host| - 10..] == ".localhost")
            && (lib.isIp(host) ==> host == "127.0.0.1") && (host == "127.0.0.1" || scheme == "https")
  {
    hide NamesHost, IsHostName, HostOf;
    var host := Lower(w.host);
    HostRead(host);
    LoopbackIsHostName();
    LowerTwice(w.host);
    NoColonLower(w.host);
    assert lib.isIp(host) == lib.isIp(Lower(host));
  }

  lemma LowerTwice(s: string)
    ensures Lower(Lower(s)) == Lower(s)
  {}

  lemma NoColonLower(s: string)
    requires ':' !in s
    ensures Lower(s) != "::1"
  {
    assert s != "" ==> s[0] in s && Lower(s)[0] == LowerChar(s[0]);
  }

  /** An address whose host is not in brackets is accepted exactly when its parts fit and its text does not look like a
      credential; then its scheme and host are stored in small letters,
      a default port and slashes at the end are not. */
  lemma AcceptedExactly(lib: Library, w: Written)
    requires Sane(lib) && Parted(w) && |w.Text()| <= MAX_ADDRESS
    ensures Normalized(lib, w.Text()) ==
            if lib.secret(w.Text()) || !Fits(lib, w) then None
            else
              var scheme := Lower(w.scheme);
              var port := if w.port.None? then None else Some(ReadDecimal(w.port.value));
              Some(Address(scheme, Lower(w.host),
                           if port == Some(if scheme == "http" then 80 else 443) then None else port,
                           StripRight(w.path, '/')))
  {
    hide Sane, HostAllowed, PathAllowed, NamesHost, HostOf, HostText, PortText, SplitUrl, Lower, HasPiece, PortReads;
    hide PortFits, ReadDecimal, IsLetters, PlainChar, BracketsMatch;
    NetlocPlainText(w);
    HostAndPort(w);
    WholeHost(w);
    ColonLast(w);
    NoBrackets(lib, w.Netloc());
    JoinSplits(lib, w.scheme, w.Netloc(), w.path);
    AllowedRead(lib, Lower(w.scheme), w);
    LowerTwice(w.host);
    PathRead(w.path);
    EmptyPort();
    if w.port.Some? && w.port.value != "" {
      PortRead(w.port.value);
    }
  }

  lemma NoBrackets(lib: Library, netloc: string)
    requires '[' !in netloc && ']' !in netloc
    ensures BracketsMatch(lib, netloc)
  {}

  lemma EmptyPort()
    ensures PortReads("") && PortOf("") == None
  {}
}
