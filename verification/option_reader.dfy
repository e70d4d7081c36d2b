/**
 How a mount option string is read back: it is cut at commas into tokens, a
 token `key=value` carries a value for `key`, a token without `=` is a bare
 flag, and when a key appears twice the later token wins (the convention of
 mount option parsers, which apply the tokens left to right).
 */
module OptionReader {
  import opened Optional
  import opened Decimal

  /** `key=value`, the shape of every valued option the renderers emit. */
  function KeyValue(key: string, value: string): string {
    key + "=" + value
  }

  /** Index of the first `=` in `t`, or `|t|` when there is none. */
  function KeyEnd(t: string): (i: nat)
    ensures i <= |t|
    ensures forall k :: 0 <= k < i ==> t[k] != '='
    ensures i < |t| ==> t[i] == '='
    decreases |t|
  {
    if |t| == 0 || t[0] == '=' then 0 else 1 + KeyEnd(t[1..])
  }

  function KeyOf(t: string): string {
    t[..KeyEnd(t)]
  }

  /** The text after the first `=`; `None` for a bare flag. */
  function ValueOf(t: string): Option<string> {
    var i := KeyEnd(t);
    if i < |t| then Some(t[i + 1..]) else None
  }

  /** A key without `=` is read back, with its value, from `key=value`. */
  lemma KeyValueReadBack(key: string, value: string)
    requires '=' !in key
    ensures KeyOf(KeyValue(key, value)) == key
    ensures ValueOf(KeyValue(key, value)) == Some(value)
  {
    var t := KeyValue(key, value);
    assert t[|key|] == '=';
    assert t[..|key|] == key;
    assert t[|key| + 1..] == value;
  }

  /** A token without `=` is a bare flag: it carries no value for any key. */
  lemma BareFlagHasNoValue(t: string)
    requires '=' !in t
    ensures ValueOf(t) == None
  {
  }

  /** The value of the last `key=...` token of `tokens`. */
  function Lookup(tokens: seq<string>, key: string): Option<string>
    decreases |tokens|
  {
    if |tokens| == 0 then None
    else
      var last := tokens[|tokens| - 1];
      if KeyOf(last) == key && ValueOf(last).Some? then ValueOf(last)
      else Lookup(tokens[..|tokens| - 1], key)
  }

  /** One more token overrides the earlier ones when it gives `key` a value. */
  lemma LookupSnoc(tokens: seq<string>, t: string, key: string)
    ensures Lookup(tokens + [t], key)
            == (if KeyOf(t) == key && ValueOf(t).Some? then ValueOf(t) else Lookup(tokens, key))
  {
    assert (tokens + [t])[..|tokens|] == tokens;
  }

  /** Later tokens override earlier ones; earlier ones show through otherwise. */
  lemma {:induction false} LookupAppend(front: seq<string>, back: seq<string>, key: string)
    ensures Lookup(front + back, key)
            == (if Lookup(back, key).Some? then Lookup(back, key) else Lookup(front, key))
    decreases |back|
  {
    if |back| == 0 {
      assert front + back == front;
    } else {
      var all := front + back;
      assert all[..|all| - 1] == front + back[..|back| - 1];
      assert all[|all| - 1] == back[|back| - 1];
      LookupAppend(front, back[..|back| - 1], key);
    }
  }

  /** The number a reader takes from the last `key=digits` token. */
  function ReadNumber(tokens: seq<string>, key: string): Option<nat> {
    match Lookup(tokens, key)
    case Some(v) => if |v| > 0 && IsDigits(v) then Some(ParseNat(v)) else None
    case None => None
  }

  /** The signed number a reader takes from the last `key=[-]digits` token. */
  function ReadInt(tokens: seq<string>, key: string): Option<int> {
    match Lookup(tokens, key)
    case Some(v) => if IsIntText(v) then Some(ParseInt(v)) else None
    case None => None
  }

  /** Bare flags give no key a value. */
  lemma {:induction false} LookupBareFlags(flags: seq<string>, key: string)
    requires forall i :: 0 <= i < |flags| ==> '=' !in flags[i]
    ensures Lookup(flags, key) == None
    decreases |flags|
  {
    if |flags| > 0 {
      BareFlagHasNoValue(flags[|flags| - 1]);
      LookupBareFlags(flags[..|flags| - 1], key);
    }
  }
}
