/**
 * The marker colour of extension.js: how a chunk received on the status pipe
 * picks the colour, and the state the `activate` closure keeps (the colour,
 * the decoration built for it, and the pipe client's pending reconnects).
 * The editor's decoration API is reduced to "rebuilt / not rebuilt".
 */
module Marker {
  import opened Wrappers
  import opened JsString

  /** Colours are the CSS colour names the extension passes to the editor. */
  type Color = string

  const Red: Color := "red"
  const Yellow: Color := "yellow"
  const Pink: Color := "pink"
  const Blue: Color := "blue"

  /** The colour before any status has arrived. */
  const InitialColor: Color := Red

  /** Every colour the marker can ever show. */
  const Palette: set<Color> := {Red, Yellow, Pink, Blue}

  /** The error code Node.js reports when the named pipe does not exist yet. */
  const NotFoundCode: string := "ENOENT"

  /** The two fields the handler destructures from the trimmed chunk; the second is `undefined` without a comma. */
  datatype Fields = Fields(inputMode: string, capsLockState: Option<string>)

  /**
   * `const [inputMode, capsLockState] = response.split(',')`: pieces after the
   * second are dropped. The caps-lock field is missing exactly when the
   * response has no comma; neither field holds a comma; without a comma the
   * mode field is the whole response.
   */
  function Destructure(response: string): (f: Fields)
    ensures f.capsLockState.None? <==> ',' !in response
    ensures ',' !in f.inputMode
    ensures f.capsLockState.Some? ==> ',' !in f.capsLockState.value
    ensures f.capsLockState.None? ==> f.inputMode == response
  {
    var parts := Split(response, ',');
    SplitSpec(response, ',');
    SplitCount(response, ',');
    assert |parts| == 1 ==> Join(parts, ',') == parts[0];
    Fields(parts[0], if |parts| >= 2 then Some(parts[1]) else None)
  }

  /**
   * The colour chosen for the given fields, starting from the current colour.
   * It is the current colour or a status colour; caps lock "True" always gives
   * blue, and nothing else can turn the marker blue; a mode field other than
   * "1" or "0" without caps lock keeps the current colour.
   */
  function Decide(current: Color, f: Fields): (c: Color)
    ensures c in {current, Yellow, Pink, Blue}
    ensures f.capsLockState == Some("True") ==> c == Blue
    ensures c == Blue && current != Blue ==> f.capsLockState == Some("True")
    ensures f.capsLockState != Some("True") && f.inputMode != "1" && f.inputMode != "0" ==> c == current
  {
    var byMode := if f.inputMode == "1" then Yellow else if f.inputMode == "0" then Pink else current;
    if f.capsLockState == Some("True") then Blue else byMode
  }

  /**
   * The `data` handler's decision: the colour after receiving `chunk` while
   * showing `current`. The result is the current colour or one of the three
   * status colours, so starting inside the palette the marker never leaves it.
   */
  function NextColor(current: Color, chunk: string): (c: Color)
    ensures c == current || c in {Yellow, Pink, Blue}
    ensures current in Palette ==> c in Palette
  {
    Decide(current, Destructure(Trim(chunk)))
  }

  /**
   * A trimmed chunk of the form `a,b` or `a,b,...`: only `a` and `b` matter,
   * and whatever follows the second comma is ignored.
   */
  lemma {:induction false} TwoOrMoreFields(current: Color, chunk: string, a: string, b: string, rest: string)
    requires Trim(chunk) == a + "," + b + rest
    requires ',' !in a && ',' !in b
    requires rest == [] || rest[0] == ','
    ensures NextColor(current, chunk) ==
      if b == "True" then Blue else if a == "1" then Yellow else if a == "0" then Pink else current
  {
    DestructureTwo(a, b, rest);
  }

  lemma DestructureTwo(a: string, b: string, rest: string)
    requires ',' !in a && ',' !in b
    requires rest == [] || rest[0] == ','
    ensures Destructure(a + "," + b + rest) == Fields(a, Some(b))
  {
    var tail := [','] + (b + rest);
    assert a + "," + b + rest == a + tail;
    SplitHead(a, tail, ',');
    assert tail[1..] == b + rest;
    SplitHead(b, rest, ',');
    if rest == [] {
      assert b + rest == b;
    }
  }

  /** A chunk without a comma has no caps-lock field: only its whole trimmed text can pick a colour, and never blue. */
  lemma NoCommaNoCaps(current: Color, chunk: string)
    requires ',' !in Trim(chunk)
    ensures NextColor(current, chunk) ==
      if Trim(chunk) == "1" then Yellow else if Trim(chunk) == "0" then Pink else current
    ensures NextColor(current, chunk) == Blue ==> current == Blue
  {
  }

  /** Receiving the same chunk twice decides the same colour as receiving it once. */
  lemma NextColorIdempotent(current: Color, chunk: string)
    ensures NextColor(NextColor(current, chunk), chunk) == NextColor(current, chunk)
  {
    var f := Destructure(Trim(chunk));
    var once := Decide(current, f);
    assert NextColor(current, chunk) == once;
    assert NextColor(once, chunk) == Decide(once, f);
    if f.capsLockState != Some("True") && f.inputMode != "1" && f.inputMode != "0" {
      assert once == current;
    }
  }

  /** Only the trimmed chunk counts: surrounding whitespace never changes the decision. */
  lemma PaddingIgnored(current: Color, p: string, chunk: string, q: string)
    requires AllWhitespace(p) && AllWhitespace(q)
    ensures NextColor(current, p + chunk + q) == NextColor(current, chunk)
  {
    TrimAbsorbsPadding(p, chunk, q);
  }

  /**
   * The state `activate` keeps in its closure: the marker colour, the colour
   * the current decoration type was created with, how many decoration types
   * have been created, and the pipe client's reconnect timers.
   */
  class Activation {
    var triangleColor: Color
    var decorationColor: Color
    var decorationsCreated: nat
    /** Reconnect timers scheduled and not yet fired. */
    var pendingReconnects: nat
    /** Calls of `detectInputMethodState`, each opening a new pipe client. */
    var connectAttempts: nat

    /** The decoration always shows the current colour, and the colour stays in the palette. */
    ghost predicate Valid()
      reads this
    {
      decorationColor == triangleColor && triangleColor in Palette
    }

    /** `activate`: red marker, one decoration type, one connection attempt. */
    constructor ()
      ensures Valid()
      ensures triangleColor == InitialColor && decorationsCreated == 1
      ensures pendingReconnects == 0 && connectAttempts == 1
    {
      triangleColor := InitialColor;
      decorationColor := InitialColor;
      decorationsCreated := 1;
      pendingReconnects := 0;
      connectAttempts := 1;
    }

    /**
     * The pipe client's `data` handler. The decoration is disposed and
     * rebuilt exactly when the decided colour differs from the current one;
     * otherwise nothing changes.
     */
    method OnData(chunk: string) returns (rebuilt: bool)
      requires Valid()
      modifies this
      ensures Valid()
      ensures triangleColor == NextColor(old(triangleColor), chunk)
      ensures rebuilt <==> triangleColor != old(triangleColor)
      ensures decorationsCreated == old(decorationsCreated) + (if rebuilt then 1 else 0)
      ensures pendingReconnects == old(pendingReconnects) && connectAttempts == old(connectAttempts)
    {
      var newColor := NextColor(triangleColor, chunk);
      rebuilt := newColor != triangleColor;
      if rebuilt {
        triangleColor := newColor;
        decorationColor := triangleColor;
        decorationsCreated := decorationsCreated + 1;
      }
    }

    /** The pipe client's `error` handler: a reconnect is scheduled if and only if the code is `ENOENT`. */
    method OnPipeError(code: Option<string>) returns (retry: bool)
      requires Valid()
      modifies this
      ensures Valid()
      ensures retry <==> code == Some(NotFoundCode)
      ensures pendingReconnects == old(pendingReconnects) + (if retry then 1 else 0)
      ensures triangleColor == old(triangleColor) && decorationsCreated == old(decorationsCreated)
      ensures connectAttempts == old(connectAttempts)
    {
      retry := code == Some(NotFoundCode);
      if retry {
        pendingReconnects := pendingReconnects + 1;
      }
    }

    /** A reconnect timer fires: one pending entry is consumed and a new connection is attempted. */
    method FireReconnect()
      requires Valid() && pendingReconnects > 0
      modifies this
      ensures Valid()
      ensures pendingReconnects == old(pendingReconnects) - 1
      ensures connectAttempts == old(connectAttempts) + 1
      ensures triangleColor == old(triangleColor) && decorationsCreated == old(decorationsCreated)
    {
      pendingReconnects := pendingReconnects - 1;
      connectAttempts := connectAttempts + 1;
    }
  }

  /** Delivering the same chunk twice in a row rebuilds the decoration at most once, in every state. */
  method RepeatedChunk(tip: Activation, chunk: string) returns (first: bool, second: bool)
    requires tip.Valid()
    modifies tip
    ensures tip.Valid()
    ensures !second
    ensures first <==> NextColor(old(tip.triangleColor), chunk) != old(tip.triangleColor)
    ensures tip.triangleColor == NextColor(old(tip.triangleColor), chunk)
    ensures tip.decorationsCreated == old(tip.decorationsCreated) + (if first then 1 else 0)
    ensures tip.pendingReconnects == old(tip.pendingReconnects) && tip.connectAttempts == old(tip.connectAttempts)
  {
    NextColorIdempotent(tip.triangleColor, chunk);
    first := tip.OnData(chunk);
    second := tip.OnData(chunk);
  }
}
