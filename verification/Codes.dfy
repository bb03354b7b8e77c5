/** Room codes. */
module Codes {
  const CODE_LENGTH: nat := 4
  const MAX_RETRIES: nat := 100

  predicate IsCode(code: string) {
    |code| == CODE_LENGTH && forall i :: 0 <= i < |code| ==> 'A' <= code[i] <= 'Z'
  }

  method RandomCode() returns (code: string)
    ensures IsCode(code) && |code| == 4 && forall c :: c in code ==> 'A' <= c <= 'Z'
  {
    code := "";
    for i := 0 to CODE_LENGTH
      invariant |code| == i && forall k :: 0 <= k < i ==> 'A' <= code[k] <= 'Z'
    {
      var letter :| 'A' <= letter <= 'Z';
      code := code + [letter];
    }
  }

  /** The code is the last of these draws, all others are used, and so may it be, but only after a hundred. */
  ghost predicate CodeDraw(code: string, draws: seq<string>, existing: set<string>) {
    && IsCode(code) && 1 <= |draws| <= MAX_RETRIES + 1 && code == draws[|draws| - 1]
    && (forall i :: 0 <= i < |draws| - 1 ==> draws[i] in existing)
    && (code in existing ==> |draws| == MAX_RETRIES + 1)
  }

  /** A code not in use, unless a hundred draws in a row all hit used ones. */
  method GenerateCode(existing: set<string>) returns (code: string, ghost draws: seq<string>)
    ensures |code| == 4 && (forall c :: c in code ==> 'A' <= c <= 'Z')
    ensures CodeDraw(code, draws, existing)
    ensures code in existing ==> |draws| == 101 && forall i :: 0 <= i < 100 ==> draws[i] in existing
  {
    draws := [];
    for i := 0 to MAX_RETRIES
      invariant |draws| == i && forall k :: 0 <= k < i ==> draws[k] in existing
    {
      code := RandomCode();
      draws := draws + [code];
      if code !in existing {
        return;
      }
    }
    code := RandomCode();
    draws := draws + [code];
  }
}
