/** PII redaction of semantic nodes: captions, aliases and attributes of a whole tree. */
module RedactedNodes {
  import opened Options
  import opened Redactor
  import opened SemanticNodes
  import opened Strings
  import K = RedactedKeys

  const STARS: string := "***"

  predicate IsSensitiveRole(role: string) {
    role in ["password", "credit-card", "creditcard"]
  }

  predicate HasSensitiveType(attributes: Attributes) {
    "type" in attributes && LowerAll(attributes["type"]) in ["password", "hidden", "email"]
  }

  predicate IsMasked(attributes: Attributes, key: string) {
    IsSensitiveKey(key) || (HasSensitiveType(attributes) && LowerAll(key) == "value")
  }

  function RedactAttributes(text: string -> string, attributes: Attributes): Attributes {
    map k | k in attributes :: if IsMasked(attributes, k) then STARS else text(attributes[k])
  }

  function RedactNode(text: string -> string, n: Node): Node
    decreases n
  {
    n.(caption := if n.caption.None? then None
                  else Some(if IsSensitiveRole(n.role) then STARS else text(n.caption.value)),
       alias := if n.alias.None? then None else Some(text(n.alias.value)),
       attributes := if n.attributes.None? then None else Some(RedactAttributes(text, n.attributes.value)),
       children := seq(|n.children|, i requires 0 <= i < |n.children| => RedactNode(text, n.children[i])))
  }

  // ---- what leaves, and what stays ----

  ghost predicate CleanText(clean: string -> bool, t: Option<string>) {
    t.Some? ==> clean(t.value)
  }

  /** Every caption, alias and attribute value of the tree is clean. */
  ghost predicate CleanTree(clean: string -> bool, n: Node)
    decreases n
  {
    && CleanText(clean, n.caption) && CleanText(clean, n.alias)
    && (n.attributes.Some? ==> forall k <- n.attributes.value :: clean(n.attributes.value[k]))
    && forall i :: 0 <= i < |n.children| ==> CleanTree(clean, n.children[i])
  }

  /** The trees differ in their texts alone, and those are absent or present alike. */
  ghost predicate SameShape(n: Node, r: Node)
    decreases n
  {
    && r == n.(caption := r.caption, alias := r.alias, attributes := r.attributes, children := r.children)
    && (r.caption.Some? <==> n.caption.Some?) && (r.alias.Some? <==> n.alias.Some?)
    && (r.attributes.Some? <==> n.attributes.Some?)
    && (r.attributes.Some? ==> r.attributes.value.Keys == n.attributes.value.Keys)
    && |r.children| == |n.children|
    && forall i :: 0 <= i < |n.children| ==> SameShape(n.children[i], r.children[i])
  }

  /** Whatever text redaction guarantees of its output holds of every text of the tree, at any depth. */
  lemma {:induction false} OnlyCleanTextLeaves(text: string -> string, clean: string -> bool, n: Node)
    requires clean(STARS) && forall s: string :: clean(text(s))
    ensures CleanTree(clean, RedactNode(text, n))
    decreases n
  {
    forall i | 0 <= i < |n.children|
      ensures CleanTree(clean, RedactNode(text, n).children[i])
    {
      OnlyCleanTextLeaves(text, clean, n.children[i]);
    }
  }

  /** And nothing but text changes. */
  lemma {:induction false} RedactionKeepsShape(text: string -> string, n: Node)
    ensures SameShape(n, RedactNode(text, n))
    decreases n
  {
    forall i | 0 <= i < |n.children|
      ensures SameShape(n.children[i], RedactNode(text, n).children[i])
    {
      RedactionKeepsShape(text, n.children[i]);
    }
  }

  /** The element is one whose typed value must not leave. */
  predicate HidesItsValue(attributes: Attributes) {
    "type" in attributes &&
    (LowerAll(attributes["type"]) == "password" || LowerAll(attributes["type"]) == "hidden" ||
     LowerAll(attributes["type"]) == "email")
  }

  /** What each text of an element becomes, secrets masked and the rest redacted as text, at every depth. */
  ghost predicate Hides(text: string -> string, n: Node, r: Node)
    decreases n
  {
    && (n.caption.Some? ==> r.caption == Some(
          if n.role == "password" || n.role == "credit-card" || n.role == "creditcard" then "***"
          else text(n.caption.value)))
    && (n.alias.Some? ==> r.alias == Some(text(n.alias.value)))
    && (n.attributes.Some? ==>
          && r.attributes.Some? && r.attributes.value.Keys == n.attributes.value.Keys
          && forall k <- n.attributes.value ::
               var secret := IsSensitiveKey(k) || (LowerAll(k) == "value" && HidesItsValue(n.attributes.value));
               r.attributes.value[k] == if secret then "***" else text(n.attributes.value[k]))
    && |r.children| == |n.children|
    && forall i :: 0 <= i < |n.children| ==> Hides(text, n.children[i], r.children[i])
  }

  /** No secret leaves: sensitive captions and attributes, and what is typed into password inputs, are masked. */
  lemma {:induction false} SecretsAreMasked(text: string -> string, n: Node)
    ensures Hides(text, n, RedactNode(text, n))
    decreases n
  {
    forall i | 0 <= i < |n.children|
      ensures Hides(text, n.children[i], RedactNode(text, n).children[i])
    {
      SecretsAreMasked(text, n.children[i]);
    }
  }

  // ---- redacting twice ----

  /** Text redaction turned the element's type into one whose value is masked, and a value was let through. */
  ghost predicate TypeTurnsSensitive(text: string -> string, attributes: Attributes) {
    && !HasSensitiveType(attributes) && HasSensitiveType(RedactAttributes(text, attributes))
    && exists k <- attributes :: LowerAll(k) == "value" && !IsSensitiveKey(k) && text(attributes[k]) != STARS
  }

  /**
    Redacting attributes is not idempotent for every idempotent text redactor: the mask of `value`
    depends on `type`, which is itself redacted as text.  This is exactly when it is.
   */
  lemma AttributesSettleUnlessTypeTurns(text: string -> string, attributes: Attributes)
    requires text(STARS) == STARS && forall s: string :: text(text(s)) == text(s)
    ensures var once := RedactAttributes(text, attributes);
            RedactAttributes(text, once) == once <==> !TypeTurnsSensitive(text, attributes)
  {
    var once := RedactAttributes(text, attributes);
    var twice := RedactAttributes(text, once);
    if TypeTurnsSensitive(text, attributes) {
      var k :| k in attributes && LowerAll(k) == "value" && !IsSensitiveKey(k) && text(attributes[k]) != STARS;
      assert once[k] == text(attributes[k]) && twice[k] == STARS;
    } else {
      forall k | k in attributes
        ensures twice[k] == once[k]
      {
        if !IsSensitiveKey(k) && LowerAll(k) == "value" && !HasSensitiveType(attributes) && HasSensitiveType(once) {
          assert text(attributes[k]) == STARS;
        }
      }
    }
  }

  lemma NotContained(s: string, part: string)
    requires part != "" && forall i :: 0 <= i <= |s| - |part| ==> s[i] != part[0]
    ensures !Contains(s, part)
  {
    forall i | 0 <= i <= |s|
      ensures !(part <= s[i..])
    {
      if i <= |s| - |part| {
        assert s[i..][0] == s[i];
      }
    }
  }

  lemma NoCredentialIn(s: string)
    requires s == "type" || s == "value"
    ensures !Contains(s, "password") && !Contains(s, "email") && !Contains(s, "token")
    ensures !Contains(s, "secret") && !Contains(s, "card")
  {
    NotContained(s, "password");
    NotContained(s, "email");
    NotContained(s, "token");
    NotContained(s, "secret");
    NotContained(s, "card");
  }

  /** A key of one word without a credential in it and outside the lists. */
  lemma OrdinaryKey(s: string)
    requires s == "type" || s == "value"
    ensures !IsSensitiveKey(s)
  {
    NoCredentialIn(s);
    K.OneWordIsSensitiveIff(s);
  }

  lemma OrdinaryKeys()
    ensures !IsSensitiveKey("type") && !IsSensitiveKey("value")
    ensures LowerAll("value") == "value" && LowerAll("hidden") == "hidden"
  {
    OrdinaryKey("type");
    OrdinaryKey("value");
    K.LowerOfPlain("value");
    K.LowerOfPlain("hidden");
  }

  /**
    It happens: one configured domain pattern that replaces a word by "hidden" is idempotent, and
    lets the value of an element of that type through on the first redaction only.
   */
  lemma TypeCanTurnSensitive(value: string)
    requires value != STARS && value != "vault"
    ensures var text := (s: string) => if s == "vault" then "hidden" else s;
            && (forall s: string :: text(text(s)) == text(s))
            && TypeTurnsSensitive(text, map["type" := "vault", "value" := value])
  {
    OrdinaryKeys();
    var text := (s: string) => if s == "vault" then "hidden" else s;
    var attributes: Attributes := map["type" := "vault", "value" := value];
    assert LowerAll("vault") == "vault";
    assert !HasSensitiveType(attributes);
    assert RedactAttributes(text, attributes)["type"] == "hidden";
    assert "value" in attributes && text(attributes["value"]) == value;
  }

  ghost predicate NoTypeTurns(text: string -> string, n: Node)
    decreases n
  {
    && (n.attributes.Some? ==> !TypeTurnsSensitive(text, n.attributes.value))
    && forall i :: 0 <= i < |n.children| ==> NoTypeTurns(text, n.children[i])
  }

  /** A tree is settled by one redaction exactly when no element's type turns sensitive under it. */
  lemma {:induction false} TreeSettlesUnlessTypeTurns(text: string -> string, n: Node)
    requires text(STARS) == STARS && forall s: string :: text(text(s)) == text(s)
    ensures RedactNode(text, RedactNode(text, n)) == RedactNode(text, n) <==> NoTypeTurns(text, n)
    decreases n
  {
    var once := RedactNode(text, n);
    var twice := RedactNode(text, once);
    if n.attributes.Some? {
      AttributesSettleUnlessTypeTurns(text, n.attributes.value);
    }
    forall i | 0 <= i < |n.children|
      ensures twice.children[i] == once.children[i] <==> NoTypeTurns(text, n.children[i])
    {
      TreeSettlesUnlessTypeTurns(text, n.children[i]);
    }
    if NoTypeTurns(text, n) {
      assert twice.children == once.children;
    } else if twice == once {
      assert twice.attributes == once.attributes;
      forall i | 0 <= i < |n.children|
        ensures NoTypeTurns(text, n.children[i])
      {
        assert twice.children[i] == once.children[i];
      }
    }
  }
}
