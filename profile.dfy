/** The profile form (src/components/auth/ProfileSetup.tsx).

    The form's text fields are checked against a fixed schema (name 3..50
    characters, bio at most 160, gender one of three words, age 18..100 after
    JavaScript's `parseInt`, a two-character country) before anything is
    written; a picked file is kept only when its MIME type is an image, and is
    stored under `<userId>/profile.<ext>`. Storage and row updates are
    recorded as a list of writes, and their failures are parameters. */
module Profile {
  import opened Common
  import Auth

  const MinName := 3
  const MaxName := 50
  const MaxBio := 160
  const MinAge := 18
  const MaxAge := 100
  const CountryLength := 2
  const Genders := ["male", "female", "other"]

  /** The form's text fields as typed. */
  datatype Form = Form(name: string, bio: string, gender: string, age: string, country: string)

  /** The parsed, validated data. */
  datatype Details = Details(name: string, bio: string, gender: string, age: int, country: string)

  datatype Validation = Accepted(details: Details) | Rejected

  // ---------------------------------------------------------------------------
  // parseInt with no radix

  /** The white space and line terminators `parseInt` skips at the start. */
  predicate IsSpace(c: char)
  {
    var n := c as int;
    n == 9 || n == 10 || n == 11 || n == 12 || n == 13 || n == 32 || n == 0xA0 || n == 0x1680
    || (0x2000 <= n <= 0x200A) || n == 0x2028 || n == 0x2029 || n == 0x202F || n == 0x205F
    || n == 0x3000 || n == 0xFEFF
  }

  function TrimStart(s: string): (r: string)
    ensures |r| <= |s| && r == s[|s| - |r|..]
    ensures r == [] || !IsSpace(r[0])
  {
    if s != [] && IsSpace(s[0]) then TrimStart(s[1..]) else s
  }

  /** The value of a character as a digit: 0-9, then letters for 10-35; 36 for anything else. */
  function DigitValue(c: char): nat
  {
    if '0' <= c <= '9' then c as int - '0' as int
    else if 'a' <= c <= 'z' then c as int - 'a' as int + 10
    else if 'A' <= c <= 'Z' then c as int - 'A' as int + 10
    else 36
  }

  predicate IsDigitIn(c: char, radix: nat)
  {
    DigitValue(c) < radix
  }

  /** The longest prefix of digits in the radix. */
  function DigitRun(s: string, radix: nat): (r: string)
    ensures r <= s
    ensures forall i :: 0 <= i < |r| ==> IsDigitIn(r[i], radix)
    ensures |r| < |s| ==> !IsDigitIn(s[|r|], radix)
  {
    if s != [] && IsDigitIn(s[0], radix) then [s[0]] + DigitRun(s[1..], radix) else []
  }

  /** The number a digit string denotes, most significant digit first. */
  function ValueOf(ds: string, radix: nat): nat
  {
    if ds == [] then 0 else ValueOf(ds[..|ds| - 1], radix) * radix + DigitValue(ds[|ds| - 1])
  }

  predicate HasHexPrefix(s: string)
  {
    |s| >= 2 && s[0] == '0' && (s[1] == 'x' || s[1] == 'X')
  }

  /** The text after one leading sign, if any. */
  function Unsigned(t: string): (r: string)
    ensures r == t || (t != [] && (t[0] == '-' || t[0] == '+') && r == t[1..])
  {
    if t != [] && (t[0] == '-' || t[0] == '+') then t[1..] else t
  }

  /** The magnitude `parseInt` reads from unsigned text: base 16 after `0x`/`0X`,
      base 10 otherwise, up to the first non-digit; `None` when there is no digit. */
  function Magnitude(body: string): Option<nat>
  {
    var radix := if HasHexPrefix(body) then 16 else 10;
    var digits := DigitRun(if radix == 16 then body[2..] else body, radix);
    if digits == [] then None else Some(ValueOf(digits, radix))
  }

  /** `parseInt(s)` with no radix: skip leading white space, take one sign, read the
      magnitude; `None` is NaN. */
  function ParseInt(s: string): Option<int>
  {
    var t := TrimStart(s);
    var m := Magnitude(Unsigned(t));
    if m.None? then None
    else if t != [] && t[0] == '-' then Some(-(m.value as int))
    else Some(m.value)
  }

  function DigitChar(d: nat): (c: char)
    requires d < 10
    ensures IsDigitIn(c, 10) && DigitValue(c) == d
  {
    ('0' as int + d) as char
  }

  /** `Number.prototype.toString()` on a non-negative integer. */
  function NatToString(n: nat): (r: string)
    ensures r != []
    ensures forall i :: 0 <= i < |r| ==> IsDigitIn(r[i], 10)
  {
    if n < 10 then [DigitChar(n)] else NatToString(n / 10) + [DigitChar(n % 10)]
  }

  /** `Number.prototype.toString()` on an integer. */
  function IntToString(i: int): string
  {
    if i < 0 then "-" + NatToString(-i) else NatToString(i)
  }

  lemma {:induction false} ValueOfNatToString(n: nat)
    ensures ValueOf(NatToString(n), 10) == n
  {
    if n >= 10 {
      var s := NatToString(n);
      assert s[..|s| - 1] == NatToString(n / 10);
      ValueOfNatToString(n / 10);
    }
  }

  lemma {:induction false} DigitRunAll(s: string, radix: nat)
    requires forall i :: 0 <= i < |s| ==> IsDigitIn(s[i], radix)
    ensures DigitRun(s, radix) == s
  {
    if s != [] {
      DigitRunAll(s[1..], radix);
    }
  }

  /** A digit run ends at the first character that is not a digit. */
  lemma {:induction false} DigitRunStops(s: string, rest: string, radix: nat)
    requires forall i :: 0 <= i < |s| ==> IsDigitIn(s[i], radix)
    requires rest == [] || !IsDigitIn(rest[0], radix)
    ensures DigitRun(s + rest, radix) == s
  {
    if s == [] {
      assert s + rest == rest;
    } else {
      assert (s + rest)[1..] == s[1..] + rest;
      DigitRunStops(s[1..], rest, radix);
    }
  }

  /** Decimal text followed by anything but `x`/`X` never looks hexadecimal. */
  lemma {:induction false} NoHexPrefix(n: nat, rest: string)
    requires rest == [] || (!IsDigitIn(rest[0], 10) && rest[0] != 'x' && rest[0] != 'X')
    ensures !HasHexPrefix(NatToString(n) + rest)
  {
    var digits := NatToString(n);
    var b := digits + rest;
    if |digits| >= 2 {
      assert b[1] == digits[1];
    } else if rest != [] {
      assert b[1] == rest[0];
    }
  }

  /** The decimal text of `n`, followed by text that does not extend it, has magnitude `n`. */
  lemma {:induction false} DecimalMagnitude(n: nat, rest: string)
    requires rest == [] || (!IsDigitIn(rest[0], 10) && rest[0] != 'x' && rest[0] != 'X')
    ensures Magnitude(NatToString(n) + rest) == Some(n)
  {
    NoHexPrefix(n, rest);
    DigitRunStops(NatToString(n), rest, 10);
    ValueOfNatToString(n);
  }

  /** A decimal digit is neither white space nor a sign. */
  lemma DigitIsPlain(c: char)
    requires IsDigitIn(c, 10)
    ensures !IsSpace(c) && c != '-' && c != '+'
  {
    assert '0' <= c <= '9';
  }

  /** Text that starts with a digit and has magnitude `n` parses to `n`. */
  lemma PlainText(s: string, n: nat)
    requires s != [] && IsDigitIn(s[0], 10) && Magnitude(s) == Some(n)
    ensures ParseInt(s) == Some(n)
  {
    DigitIsPlain(s[0]);
    assert TrimStart(s) == s;
    assert Unsigned(s) == s;
  }

  /** A minus sign followed by text with magnitude `n` parses to `-n`. */
  lemma MinusText(b: string, n: nat)
    requires Magnitude(b) == Some(n)
    ensures ParseInt("-" + b) == Some(-(n as int))
  {
    var s := "-" + b;
    assert s[0] == '-' && s[1..] == b;
    assert TrimStart(s) == s;
    assert Unsigned(s) == b;
  }

  lemma {:induction false} NegativeRoundTrip(n: nat, rest: string)
    requires rest == [] || (!IsDigitIn(rest[0], 10) && rest[0] != 'x' && rest[0] != 'X')
    ensures ParseInt("-" + (NatToString(n) + rest)) == Some(-(n as int))
  {
    DecimalMagnitude(n, rest);
    MinusText(NatToString(n) + rest, n);
  }

  lemma {:induction false} NonNegativeRoundTrip(n: nat, rest: string)
    requires rest == [] || (!IsDigitIn(rest[0], 10) && rest[0] != 'x' && rest[0] != 'X')
    ensures ParseInt(NatToString(n) + rest) == Some(n)
  {
    var digits := NatToString(n);
    DecimalMagnitude(n, rest);
    assert (digits + rest)[0] == digits[0];
    PlainText(digits + rest, n);
  }

  lemma Associative(a: string, b: string, c: string)
    ensures a + b + c == a + (b + c)
  {
  }

  /** `parseInt` reads back what `toString` writes, and ignores what follows the digits
      (unless that is an `x` turning "0" into a hexadecimal prefix). */
  lemma {:induction false} ParseIntRoundTrip(i: int, rest: string)
    requires rest == [] || (!IsDigitIn(rest[0], 10) && rest[0] != 'x' && rest[0] != 'X')
    ensures ParseInt(IntToString(i) + rest) == Some(i)
  {
    if i < 0 {
      NegativeRoundTrip(-i, rest);
      Associative("-", NatToString(-i), rest);
    } else {
      NonNegativeRoundTrip(i, rest);
    }
  }

  /** Text without a single decimal digit is NaN, so its age is rejected. */
  lemma NoDigitsIsNaN(s: string)
    requires forall i :: 0 <= i < |s| ==> !IsDigitIn(s[i], 10)
    ensures ParseInt(s).None?
  {
    var t := TrimStart(s);
    var body := Unsigned(t);
    if body != [] {
      var k := |s| - |body|;
      assert body == s[k..] && body[0] == s[k];
    }
    NoLeadingDigit(body);
  }

  lemma NoLeadingDigit(body: string)
    requires body == [] || !IsDigitIn(body[0], 10)
    ensures Magnitude(body).None?
  {
    assert !HasHexPrefix(body);
  }

  // ---------------------------------------------------------------------------
  // The schema

  /** What the schema demands of validated data. */
  predicate Conforms(d: Details)
  {
    && MinName <= |d.name| <= MaxName
    && |d.bio| <= MaxBio
    && d.gender in Genders
    && MinAge <= d.age <= MaxAge
    && |d.country| == CountryLength
  }

  /** `profileSchema.parse({...formData, age: parseInt(formData.age)})`. */
  function Validate(f: Form): (r: Validation)
    ensures r.Accepted? ==> Conforms(r.details)
    ensures r.Accepted? ==> r.details.name == f.name && r.details.bio == f.bio && r.details.gender == f.gender
                            && r.details.country == f.country && Some(r.details.age) == ParseInt(f.age)
    ensures ParseInt(f.age).Some? && Conforms(Details(f.name, f.bio, f.gender, ParseInt(f.age).value, f.country)) ==> r.Accepted?
  {
    var age := ParseInt(f.age);
    if age.None? then Rejected
    else
      var d := Details(f.name, f.bio, f.gender, age.value, f.country);
      if Conforms(d) then Accepted(d) else Rejected
  }

  /** Each rule alone rejects the form. */
  lemma EachRuleRejects(f: Form)
    ensures |f.name| < MinName || |f.name| > MaxName ==> Validate(f).Rejected?
    ensures |f.bio| > MaxBio ==> Validate(f).Rejected?
    ensures f.gender != "male" && f.gender != "female" && f.gender != "other" ==> Validate(f).Rejected?
    ensures ParseInt(f.age).None? || ParseInt(f.age).value < MinAge || ParseInt(f.age).value > MaxAge ==> Validate(f).Rejected?
    ensures |f.country| != CountryLength ==> Validate(f).Rejected?
  {
  }

  /** The form's initial text, from the signed-in user (`value || ''`). */
  function InitialForm(u: Option<Auth.User>): Form
  {
    if u.None? then Form("", "", "", "", "")
    else
      var v := u.value;
      Form(OrEmpty(v.name), OrEmpty(v.bio), OrEmpty(v.gender), if v.age.None? then "" else IntToString(v.age.value),
           OrEmpty(v.country))
  }

  function OrEmpty(s: Option<string>): string
  {
    if s.None? then "" else s.value
  }

  /** Reopening the form on a user whose stored profile meets the schema validates to that same profile. */
  lemma ReopenValidates(u: Auth.User)
    requires u.name.Some? && u.bio.Some? && u.gender.Some? && u.age.Some? && u.country.Some?
    requires Conforms(Details(u.name.value, u.bio.value, u.gender.value, u.age.value, u.country.value))
    ensures Validate(InitialForm(Some(u))) == Accepted(Details(u.name.value, u.bio.value, u.gender.value, u.age.value, u.country.value))
  {
    ParseIntRoundTrip(u.age.value, "");
    assert IntToString(u.age.value) + "" == IntToString(u.age.value);
  }

  // ---------------------------------------------------------------------------
  // The picture and the submission

  datatype File = File(name: string, mime: string)

  predicate IsImage(f: File)
  {
    StartsWith(f.mime, "image/")
  }

  /** `handleImageChange`: a picked file replaces the current one only when it is an image. */
  function PickImage(current: Option<File>, picked: Option<File>): (r: Option<File>)
    ensures r == current || (picked.Some? && r == picked && IsImage(picked.value))
    ensures picked.Some? && IsImage(picked.value) ==> r == picked
  {
    if picked.Some? && IsImage(picked.value) then picked else current
  }

  /** `name.split('.').pop()`: the text after the last '.', or the whole name. */
  function Extension(name: string): (r: string)
    ensures '.' !in r && |r| <= |name|
    ensures '.' !in name ==> r == name
    ensures name == name[..|name| - |r|] + r
    ensures |r| < |name| ==> name[|name| - |r| - 1] == '.'
  {
    var r := AfterLast(name, '.');
    assert name == name[..|name| - |r|] + r;
    r
  }

  /** The storage path of a profile picture. */
  function PicturePath(userId: string, file: File): (r: string)
    ensures r == userId + "/profile." + Extension(file.name)
    ensures StartsWith(r, userId + "/")
  {
    userId + "/" + "profile." + Extension(file.name)
  }

  datatype Write =
    | UploadPicture(path: string)
    | UpdateUser(id: Option<string>, details: Details, picture: Option<string>)

  /** The writes `handleSubmit` made and, when it succeeded, the update applied to the signed-in user. */
  datatype Submission = Submission(writes: seq<Write>, applied: Option<Auth.Patch>)

  /** `{...validatedData, profile_picture}` as an update of the signed-in user. */
  function PatchOf(d: Details, picture: Option<string>): Auth.Patch
  {
    Auth.Patch(Some(Some(d.name)), Some(picture), Some(Some(d.bio)), Some(Some(d.gender)), Some(Some(d.age)),
               Some(Some(d.country)))
  }

  /** `handleSubmit`: `publicBase` is the bucket's public URL prefix; the flags say which write fails. */
  function Submit(u: Option<Auth.User>, f: Form, image: Option<File>, publicBase: string,
                  uploadFails: bool, updateFails: bool): (r: Submission)
    ensures Validate(f).Rejected? ==> r.writes == [] && r.applied.None?
    ensures r.applied.Some? <==> Validate(f).Accepted? && !updateFails && !(image.Some? && u.Some? && uploadFails)
    ensures Validate(f).Accepted? && image.Some? && u.Some? && uploadFails ==>
              r.writes == [UploadPicture(PicturePath(u.value.id, image.value))]
  {
    var v := Validate(f);
    if v.Rejected? then Submission([], None)
    else
      var current := if u.None? then None else u.value.profilePicture;
      if image.Some? && u.Some? then
        var path := PicturePath(u.value.id, image.value);
        if uploadFails then Submission([UploadPicture(path)], None)
        else
          var update := UpdateUser(Some(u.value.id), v.details, Some(publicBase + path));
          Submission([UploadPicture(path), update], if updateFails then None else Some(PatchOf(v.details, Some(publicBase + path))))
      else
        var update := UpdateUser(if u.None? then None else Some(u.value.id), v.details, current);
        Submission([update], if updateFails then None else Some(PatchOf(v.details, current)))
  }

  /** After a successful submission the signed-in user carries exactly the validated details. */
  lemma SubmitUpdatesUser(u: Auth.User, f: Form, image: Option<File>, publicBase: string)
    requires Validate(f).Accepted?
    ensures var r := Submit(Some(u), f, image, publicBase, false, false);
      var d := Validate(f).details;
      var merged := Auth.Merge(u, r.applied.value);
      && r.applied.Some?
      && merged.id == u.id && merged.name == Some(f.name) && merged.bio == Some(f.bio)
      && merged.gender == Some(f.gender) && merged.age == Some(d.age) && merged.country == Some(f.country)
      && (image.Some? ==> merged.profilePicture == Some(publicBase + PicturePath(u.id, image.value)))
      && (image.None? ==> merged.profilePicture == u.profilePicture)
  {
    var d := Validate(f).details;
    var r := Submit(Some(u), f, image, publicBase, false, false);
    if image.Some? {
      var picture := Some(publicBase + PicturePath(u.id, image.value));
      assert r.applied == Some(PatchOf(d, picture));
      MergePatchOf(u, d, picture);
    } else {
      assert r.applied == Some(PatchOf(d, u.profilePicture));
      MergePatchOf(u, d, u.profilePicture);
    }
  }

  /** The update built from validated details sets every profile field of the user. */
  lemma MergePatchOf(u: Auth.User, d: Details, picture: Option<string>)
    ensures var merged := Auth.Merge(u, PatchOf(d, picture));
      && merged.id == u.id && merged.name == Some(d.name) && merged.bio == Some(d.bio)
      && merged.gender == Some(d.gender) && merged.age == Some(d.age) && merged.country == Some(d.country)
      && merged.profilePicture == picture
  {
  }
}
