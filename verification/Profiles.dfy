/** The profile codec: NUL-separated fields. */
module Profiles {

  datatype Profile = Profile(name: string, description: string, iconCID: string, iconSpaceId: string, iconKey: string)

  const NUL := '\0'

  const ZERO := Profile("", "", "", "", "")

  function Join(fields: seq<string>): string
    requires fields != []
  {
    if |fields| == 1 then fields[0] else fields[0] + [NUL] + Join(fields[1..])
  }

  /** The first NUL at or after i, |s| if there is none. */
  function NulFrom(s: string, i: nat): (k: nat)
    requires i <= |s|
    ensures i <= k <= |s| && (k < |s| ==> s[k] == NUL) && forall j :: i <= j < k ==> s[j] != NUL
    decreases |s| - i
  {
    if i == |s| || s[i] == NUL then i else NulFrom(s, i + 1)
  }

  /** `strings.Split` on NUL. */
  function Split(s: string): (fields: seq<string>)
    ensures fields != [] && forall f :: f in fields ==> NUL !in f
    decreases |s|
  {
    var k := NulFrom(s, 0);
    if k == |s| then [s] else [s[..k]] + Split(s[k + 1..])
  }

  /** `EncodeProfile`. */
  function Encode(p: Profile): string {
    Join([p.name, p.description, p.iconCID] +
         (if p.iconSpaceId != "" || p.iconKey != "" then [p.iconSpaceId, p.iconKey] else []))
  }

  /** `DecodeProfile`. */
  function Decode(b: string): Profile {
    if b == "" then ZERO
    else
      var fields := Split(b);
      if |fields| == 1 then ZERO
      else if |fields| == 2 then ZERO.(name := fields[0])
      else if |fields| >= 5 then Profile(fields[0], fields[1], fields[2], fields[3], fields[4])
      else Profile(fields[0], fields[1], fields[2], "", "")
  }

  predicate NulFree(p: Profile) {
    && NUL !in p.name && NUL !in p.description && NUL !in p.iconCID
    && NUL !in p.iconSpaceId && NUL !in p.iconKey
  }

  lemma FirstNul(f: string, rest: string)
    requires NUL !in f
    ensures NulFrom(f + [NUL] + rest, 0) == |f|
  {
    var s := f + [NUL] + rest;
    assert s[|f|] == NUL;
    assert forall j :: 0 <= j < |f| ==> s[j] == f[j];
  }

  lemma {:induction false} SplitJoin(fields: seq<string>)
    requires fields != [] && forall f :: f in fields ==> NUL !in f
    ensures Split(Join(fields)) == fields
    decreases |fields|
  {
    assert fields[0] in fields;
    if |fields| == 1 {
      assert NulFrom(fields[0], 0) == |fields[0]|;
    } else {
      var f, rest := fields[0], Join(fields[1..]);
      assert forall g :: g in fields[1..] ==> g in fields;
      SplitJoin(fields[1..]);
      FirstNul(f, rest);
      var s := f + [NUL] + rest;
      assert s[..|f|] == f && s[|f| + 1..] == rest;
    }
  }

  /** What the decoder makes of any number of fields: of one, nothing; of two, the
      name; an avatar only of both its fields; and it ignores more than five. */
  lemma DecodeMeans(fields: seq<string>)
    requires fields != [] && forall f :: f in fields ==> NUL !in f
    ensures var p := Decode(Join(fields));
            if |fields| == 1 then p == Profile("", "", "", "", "")
            else if |fields| == 2 then p == Profile(fields[0], "", "", "", "")
            else if |fields| <= 4 then p == Profile(fields[0], fields[1], fields[2], "", "")
            else p == Profile(fields[0], fields[1], fields[2], fields[3], fields[4])
  {
    SplitJoin(fields);
    if |fields| > 1 { assert NUL in Join(fields); }
  }

  lemma DecodedIsNulFree(b: string)
    ensures NulFree(Decode(b))
  {}

  /** Decoding undoes encoding exactly for the profiles without NUL, with and
      without an avatar. */
  lemma RoundTripIff(p: Profile)
    ensures Decode(Encode(p)) == p <==> NulFree(p)
  {
    DecodedIsNulFree(Encode(p));
    if NulFree(p) {
      var three := [p.name, p.description, p.iconCID];
      var fields := three + (if p.iconSpaceId != "" || p.iconKey != "" then [p.iconSpaceId, p.iconKey] else []);
      SplitJoin(fields);
      assert Encode(p) == fields[0] + [NUL] + Join(fields[1..]);
    }
  }
}
