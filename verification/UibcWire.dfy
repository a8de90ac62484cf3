/** The input back channel in the words of the standard: which name stands for which bit, and
    how the whole value is laid out. */
module UibcWire {
  import opened Wrappers
  import opened WfdText
  import opened UibcNames
  import opened UibcCapability

  /** A word is found in a text exactly when it stands there somewhere. */
  lemma {:induction false} ContainsMeans(s: string, w: string)
    ensures Contains(s, w) <==> exists i :: 0 <= i <= |s| - |w| && s[i..][..|w|] == w
  {
    if |w| <= |s| && s[..|w|] == w {
      assert s[0..] == s;
    } else if s != [] {
      ContainsMeans(s[1..], w);
      if Contains(s, w) {
        var i :| 0 <= i <= |s[1..]| - |w| && s[1..][i..][..|w|] == w;
        assert s[1..][i..] == s[i + 1..];
      }
      if i :| 0 <= i <= |s| - |w| && s[i..][..|w|] == w {
        assert s[0..] == s && i > 0;
        assert s[1..][i - 1..] == s[i..];
      }
    }
  }

  // ---------- bits ----------

  /** The k-th bit of a mask is printed and read as this name. */
  predicate Stands(t: Table, k: nat, name: string) {
    MaskText(t, {k}) == name && MaskOf(t, [name]) == {k} && OptionLookup(t, name) == Some(k)
  }

  lemma NameStands(t: Table, k: nat, name: string)
    requires k < Size(t) && name == NameIn(t, k)
    ensures Stands(t, k, name)
  {
    LookupFrom(t, "", k, 0);
    assert "" + name == name && [name][1..] == [];
    assert From({k}, 0) == {k};
    BitsAreSep(t, {k}, 0, {});
    OneWord(t, k, 0);
  }

  lemma {:induction false} OneWord(t: Table, k: nat, i: nat)
    requires i <= Size(t) && k < Size(t)
    ensures BitWords(t, {k}, i) == if i <= k then [NameIn(t, k)] else []
    decreases Size(t) - i
  {
    if i < Size(t) {
      OneWord(t, k, i + 1);
    }
  }

  lemma CategoryNames()
    ensures Stands(Categories, 0, "GENERIC") && Stands(Categories, 1, "HIDC")
  {
    NameStands(Categories, 0, "GENERIC");
    NameStands(Categories, 1, "HIDC");
  }

  lemma TypeNames()
    ensures Stands(Types, 0, "Keyboard") && Stands(Types, 1, "Mouse")
    ensures Stands(Types, 2, "SingleTouch") && Stands(Types, 3, "MultiTouch")
    ensures Stands(Types, 4, "Joystick") && Stands(Types, 5, "Camera")
    ensures Stands(Types, 6, "Gesture") && Stands(Types, 7, "RemoteControl")
  {
    NameStands(Types, 0, "Keyboard");
    NameStands(Types, 1, "Mouse");
    NameStands(Types, 2, "SingleTouch");
    NameStands(Types, 3, "MultiTouch");
    NameStands(Types, 4, "Joystick");
    NameStands(Types, 5, "Camera");
    NameStands(Types, 6, "Gesture");
    NameStands(Types, 7, "RemoteControl");
  }

  lemma PathNames()
    ensures Stands(Paths, 0, "Infrared") && Stands(Paths, 1, "USB") && Stands(Paths, 2, "BT")
    ensures Stands(Paths, 3, "Zigbee") && Stands(Paths, 4, "Wi-Fi") && Stands(Paths, 5, "No-SP")
  {
    NameStands(Paths, 0, "Infrared");
    NameStands(Paths, 1, "USB");
    NameStands(Paths, 2, "BT");
    NameStands(Paths, 3, "Zigbee");
    NameStands(Paths, 4, "Wi-Fi");
    NameStands(Paths, 5, "No-SP");
  }

  /** Two names are printed in the order of their bits, with a comma and a space. */
  lemma TwoNames()
    ensures MaskText(Categories, {0, 1}) == "GENERIC" + ", " + "HIDC"
  {
    var mask: Mask := {0, 1};
    assert mask != {0} && {0} + {1} == mask;
    assert {} + {0} == {0};
    assert BitsText(Categories, mask, 2, mask) == "";
    assert BitsText(Categories, mask, 1, {0}) == "HIDC" + "" + "" == "HIDC";
    assert BitsText(Categories, mask, 0, {}) == "GENERIC" + ", " + BitsText(Categories, mask, 1, {0});
  }

  /** A type and a path, with nothing in the place of an unknown one. */
  lemma CapStands(c: Cap)
    requires Known(c)
    ensures CapText(c) == (if c.kind.Some? then NameIn(Types, c.kind.value) else "") + "/"
                          + (if c.path.Some? then NameIn(Paths, c.path.value) else "")
    ensures CapOf(CapText(c)) == c
  {
    CapReads("", c);
    assert "" + CapText(c) == CapText(c);
  }

  // ---------- the whole value ----------

  lemma KeysStand()
    ensures " " + Key(0) == " input_category_list" && " " + Key(1) == " generic_cap_list"
    ensures " " + Key(2) == " hidc_cap_list" && Key(3) == "port"
  {
  }

  /** A list behind its key. */
  function Listed(key: string, list: string, rest: string): string {
    key + "=" + list + ";" + rest
  }

  lemma SectionStands(key: string, list: string, rest: string)
    ensures " " + Section(key, list, rest) == Listed(" " + key, list, rest)
  {
    assert " " + (key + ("=" + (list + (";" + rest)))) == " " + key + "=" + list + ";" + rest;
  }

  lemma SectionsStand(c: Capability)
    requires AllKnown(c.caps) && c.supported
    ensures
      Text(c) == Listed(" " + Key(0), MaskText(Categories, c.categories),
                 Listed(" " + Key(1), MaskText(Types, c.types),
                 Listed(" " + Key(2), HidcText(c), Key(3) + ("=" + PortText(c.port)))))
  {
    var port := Key(3) + ("=" + PortText(c.port));
    SectionStands(Key(2), HidcText(c), port);
    var hidc := Listed(" " + Key(2), HidcText(c), port);
    SectionStands(Key(1), MaskText(Types, c.types), hidc);
    var generic := Listed(" " + Key(1), MaskText(Types, c.types), hidc);
    SectionStands(Key(0), MaskText(Categories, c.categories), generic);
  }

  /** The lists stand behind their keys in this order, and the port last. */
  lemma ValueLayout(c: Capability)
    requires AllKnown(c.caps)
    ensures !c.supported ==> Text(c) == " none"
    ensures c.supported ==>
              Text(c) == Listed(" input_category_list", MaskText(Categories, c.categories),
                         Listed(" generic_cap_list", MaskText(Types, c.types),
                         Listed(" hidc_cap_list", if c.count == 0 then "none" else Sep(CapWords(c.caps)),
                         "port" + ("=" + if c.port == 0 then "none" else Digits(c.port, 10)))))
  {
    if c.supported {
      SectionsStand(c);
      KeysStand();
    }
  }
}
