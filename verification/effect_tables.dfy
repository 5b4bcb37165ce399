/** The two effect tables the command-line front-end prints and searches
    (src/bin/cli.rs): 180 built-in modes and 17 custom modes, each entry carrying its id,
    its display name and its category label. The built-in table is written here in runs
    of twenty entries, joined in order. */
module EffectTables {

  datatype EffectMode = EffectMode(id: int, name: string, category: string)

  const BuiltIn: string := "Built-in"
  const Custom: string := "Custom"

  const BuiltInRun0: seq<EffectMode> := [
    EffectMode(0, "Rainbow Gradual Chase", BuiltIn),
    EffectMode(1, "Rainbow Comet", BuiltIn),
    EffectMode(2, "Rainbow Segment", BuiltIn),
    EffectMode(3, "Rainbow Wave", BuiltIn),
    EffectMode(4, "Rainbow Meteor", BuiltIn),
    EffectMode(5, "Rainbow Gradual", BuiltIn),
    EffectMode(6, "Rainbow Jump", BuiltIn),
    EffectMode(7, "Rainbow Stars", BuiltIn),
    EffectMode(8, "Rainbow Fade In Out", BuiltIn),
    EffectMode(9, "Rainbow Spin", BuiltIn),
    EffectMode(10, "Red Stacking", BuiltIn),
    EffectMode(11, "Green Stacking", BuiltIn),
    EffectMode(12, "Blue Stacking", BuiltIn),
    EffectMode(13, "Yellow Stacking", BuiltIn),
    EffectMode(14, "Cyan Stacking", BuiltIn),
    EffectMode(15, "Purple Stacking", BuiltIn),
    EffectMode(16, "White Stacking", BuiltIn),
    EffectMode(17, "Full Color Stack", BuiltIn),
    EffectMode(18, "Red to Green Stack", BuiltIn),
    EffectMode(19, "Green to Blue Stack", BuiltIn)
  ]

  const BuiltInRun1: seq<EffectMode> := [
    EffectMode(20, "Blue to Yellow Stack", BuiltIn),
    EffectMode(21, "Yellow to Cyan Stack", BuiltIn),
    EffectMode(22, "Cyan to Purple Stack", BuiltIn),
    EffectMode(23, "Purple to White Stack", BuiltIn),
    EffectMode(24, "Red Comet", BuiltIn),
    EffectMode(25, "Green Comet", BuiltIn),
    EffectMode(26, "Blue Comet", BuiltIn),
    EffectMode(27, "Yellow Comet", BuiltIn),
    EffectMode(28, "Cyan Comet", BuiltIn),
    EffectMode(29, "Purple Comet", BuiltIn),
    EffectMode(30, "White Comet", BuiltIn),
    EffectMode(31, "Red Meteor", BuiltIn),
    EffectMode(32, "Green Meteor", BuiltIn),
    EffectMode(33, "Blue Meteor", BuiltIn),
    EffectMode(34, "Yellow Meteor", BuiltIn),
    EffectMode(35, "Cyan Meteor", BuiltIn),
    EffectMode(36, "Purple Meteor", BuiltIn),
    EffectMode(37, "White Meteor", BuiltIn),
    EffectMode(38, "Red Wave", BuiltIn),
    EffectMode(39, "Green Wave", BuiltIn)
  ]

  const BuiltInRun2: seq<EffectMode> := [
    EffectMode(40, "Blue Wave", BuiltIn),
    EffectMode(41, "Yellow Wave", BuiltIn),
    EffectMode(42, "Cyan Wave", BuiltIn),
    EffectMode(43, "Purple Wave", BuiltIn),
    EffectMode(44, "White Wave", BuiltIn),
    EffectMode(45, "Red Green Wave", BuiltIn),
    EffectMode(46, "Red Blue Wave", BuiltIn),
    EffectMode(47, "Red Yellow Wave", BuiltIn),
    EffectMode(48, "Red Cyan Wave", BuiltIn),
    EffectMode(49, "Red Purple Wave", BuiltIn),
    EffectMode(50, "Red White Wave", BuiltIn),
    EffectMode(51, "Green Blue Wave", BuiltIn),
    EffectMode(52, "Green Yellow Wave", BuiltIn),
    EffectMode(53, "Green Cyan Wave", BuiltIn),
    EffectMode(54, "Green Purple Wave", BuiltIn),
    EffectMode(55, "Green White Wave", BuiltIn),
    EffectMode(56, "Blue Yellow Wave", BuiltIn),
    EffectMode(57, "Blue Cyan Wave", BuiltIn),
    EffectMode(58, "Blue Purple Wave", BuiltIn),
    EffectMode(59, "Blue White Wave", BuiltIn)
  ]

  const BuiltInRun3: seq<EffectMode> := [
    EffectMode(60, "Yellow Cyan Wave", BuiltIn),
    EffectMode(61, "Yellow Purple Wave", BuiltIn),
    EffectMode(62, "Yellow White Wave", BuiltIn),
    EffectMode(63, "Cyan Purple Wave", BuiltIn),
    EffectMode(64, "Cyan White Wave", BuiltIn),
    EffectMode(65, "Purple White Wave", BuiltIn),
    EffectMode(66, "Red Dot Pulse", BuiltIn),
    EffectMode(67, "Green Dot Pulse", BuiltIn),
    EffectMode(68, "Blue Dot Pulse", BuiltIn),
    EffectMode(69, "Yellow Dot Pulse", BuiltIn),
    EffectMode(70, "Cyan Dot Pulse", BuiltIn),
    EffectMode(71, "Purple Dot Pulse", BuiltIn),
    EffectMode(72, "White Dot Pulse", BuiltIn),
    EffectMode(73, "Red Green Blank Pulse", BuiltIn),
    EffectMode(74, "Green Blue Blank Pulse", BuiltIn),
    EffectMode(75, "Blue Yellow Blank Pulse", BuiltIn),
    EffectMode(76, "Yellow Cyan Blank Pulse", BuiltIn),
    EffectMode(77, "Cyan Purple Blank Pulse", BuiltIn),
    EffectMode(78, "Purple White Blank Pulse", BuiltIn),
    EffectMode(79, "Red with Purple Pulse", BuiltIn)
  ]

  const BuiltInRun4: seq<EffectMode> := [
    EffectMode(80, "Green with Cyan Pulse", BuiltIn),
    EffectMode(81, "Blue with Yellow Pulse", BuiltIn),
    EffectMode(82, "Yellow with Blue Pulse", BuiltIn),
    EffectMode(83, "Cyan with Green Pulse", BuiltIn),
    EffectMode(84, "Purple with Purple Pulse", BuiltIn),
    EffectMode(85, "Red Comet Spin", BuiltIn),
    EffectMode(86, "Green Comet Spin", BuiltIn),
    EffectMode(87, "Blue Comet Spin", BuiltIn),
    EffectMode(88, "Yellow Comet Spin", BuiltIn),
    EffectMode(89, "Cyan Comet Spin", BuiltIn),
    EffectMode(90, "Purple Comet Spin", BuiltIn),
    EffectMode(91, "White Comet Spin", BuiltIn),
    EffectMode(92, "Red Dot Spin", BuiltIn),
    EffectMode(93, "Green Dot Spin", BuiltIn),
    EffectMode(94, "Blue Dot Spin", BuiltIn),
    EffectMode(95, "Yellow Dot Spin", BuiltIn),
    EffectMode(96, "Cyan Dot Spin", BuiltIn),
    EffectMode(97, "Purple Dot Spin", BuiltIn),
    EffectMode(98, "White Dot Spin", BuiltIn),
    EffectMode(99, "Red Segment Spin", BuiltIn)
  ]

  const BuiltInRun5: seq<EffectMode> := [
    EffectMode(100, "Green Segment Spin", BuiltIn),
    EffectMode(101, "Blue Segment Spin", BuiltIn),
    EffectMode(102, "Yellow Segment Spin", BuiltIn),
    EffectMode(103, "Cyan Segment Spin", BuiltIn),
    EffectMode(104, "Purple Segment Spin", BuiltIn),
    EffectMode(105, "White Segment Spin", BuiltIn),
    EffectMode(106, "Red Green Gradual Snake", BuiltIn),
    EffectMode(107, "Red Blue Gradual Snake", BuiltIn),
    EffectMode(108, "Red Yellow Gradual Snake", BuiltIn),
    EffectMode(109, "Red Cyan Gradual Snake", BuiltIn),
    EffectMode(110, "Red Purple Gradual Snake", BuiltIn),
    EffectMode(111, "Red White Gradual Snake", BuiltIn),
    EffectMode(112, "Green Blue Gradual Snake", BuiltIn),
    EffectMode(113, "Green Yellow Gradual Snake", BuiltIn),
    EffectMode(114, "Green Cyan Gradual Snake", BuiltIn),
    EffectMode(115, "Green Purple Gradual Snake", BuiltIn),
    EffectMode(116, "Green White Gradual Snake", BuiltIn),
    EffectMode(117, "Blue Yellow Gradual Snake", BuiltIn),
    EffectMode(118, "Blue Cyan Gradual Snake", BuiltIn),
    EffectMode(119, "Blue Purple Gradual Snake", BuiltIn)
  ]

  const BuiltInRun6: seq<EffectMode> := [
    EffectMode(120, "Blue White Gradual Snake", BuiltIn),
    EffectMode(121, "Yellow Cyan Gradual Snake", BuiltIn),
    EffectMode(122, "Yellow Purple Gradual Snake", BuiltIn),
    EffectMode(123, "Yellow White Gradual Snake", BuiltIn),
    EffectMode(124, "Cyan Purple Gradual Snake", BuiltIn),
    EffectMode(125, "Cyan White Gradual Snake", BuiltIn),
    EffectMode(126, "Purple White Gradual Snake", BuiltIn),
    EffectMode(127, "Red White Blank Snake", BuiltIn),
    EffectMode(128, "Green White Blank Snake", BuiltIn),
    EffectMode(129, "Blue White Blank Snake", BuiltIn),
    EffectMode(130, "Yellow White Blank Snake", BuiltIn),
    EffectMode(131, "Cyan White Blank Snake", BuiltIn),
    EffectMode(132, "Purple White Blank Snake", BuiltIn),
    EffectMode(133, "Green Yellow White Snake", BuiltIn),
    EffectMode(134, "Red Green White Snake", BuiltIn),
    EffectMode(135, "Red Yellow Snake", BuiltIn),
    EffectMode(136, "Red White Snake", BuiltIn),
    EffectMode(137, "Green White Snake", BuiltIn),
    EffectMode(138, "Red Stars", BuiltIn),
    EffectMode(139, "Green Stars", BuiltIn)
  ]

  const BuiltInRun7: seq<EffectMode> := [
    EffectMode(140, "Blue Stars", BuiltIn),
    EffectMode(141, "Yellow Stars", BuiltIn),
    EffectMode(142, "Cyan Stars", BuiltIn),
    EffectMode(143, "Purple Stars", BuiltIn),
    EffectMode(144, "White Stars", BuiltIn),
    EffectMode(145, "Red Background Stars", BuiltIn),
    EffectMode(146, "Green Background Stars", BuiltIn),
    EffectMode(147, "Blue Background Stars", BuiltIn),
    EffectMode(148, "Yellow Background Stars", BuiltIn),
    EffectMode(149, "Cyan Background Stars", BuiltIn),
    EffectMode(150, "Purple Background Stars", BuiltIn),
    EffectMode(151, "Red White Background Stars", BuiltIn),
    EffectMode(152, "Green White Background Stars", BuiltIn),
    EffectMode(153, "Blue White Background Stars", BuiltIn),
    EffectMode(154, "Yellow White Background Stars", BuiltIn),
    EffectMode(155, "Cyan White Background Stars", BuiltIn),
    EffectMode(156, "Purple White Background Stars", BuiltIn),
    EffectMode(157, "White White Background Stars", BuiltIn),
    EffectMode(158, "Red Breath", BuiltIn),
    EffectMode(159, "Green Breath", BuiltIn)
  ]

  const BuiltInRun8: seq<EffectMode> := [
    EffectMode(160, "Blue Breath", BuiltIn),
    EffectMode(161, "Yellow Breath", BuiltIn),
    EffectMode(162, "Cyan Breath", BuiltIn),
    EffectMode(163, "Purple Breath", BuiltIn),
    EffectMode(164, "White Breath", BuiltIn),
    EffectMode(165, "Red Yellow Fire", BuiltIn),
    EffectMode(166, "Red Purple Fire", BuiltIn),
    EffectMode(167, "Green Yellow Fire", BuiltIn),
    EffectMode(168, "Green Cyan Fire", BuiltIn),
    EffectMode(169, "Blue Purple Fire", BuiltIn),
    EffectMode(170, "Blue Cyan Fire", BuiltIn),
    EffectMode(171, "Red Strobe", BuiltIn),
    EffectMode(172, "Green Strobe", BuiltIn),
    EffectMode(173, "Blue Strobe", BuiltIn),
    EffectMode(174, "Yellow Strobe", BuiltIn),
    EffectMode(175, "Cyan Strobe", BuiltIn),
    EffectMode(176, "Purple Strobe", BuiltIn),
    EffectMode(177, "White Strobe", BuiltIn),
    EffectMode(178, "Red Blue White Strobe", BuiltIn),
    EffectMode(179, "Full Color Strobe", BuiltIn)
  ]

  const BuiltInEffects: seq<EffectMode> :=
    BuiltInRun0 + BuiltInRun1 + BuiltInRun2 + BuiltInRun3 + BuiltInRun4 + BuiltInRun5 + BuiltInRun6 + BuiltInRun7 + BuiltInRun8

  const CustomEffects: seq<EffectMode> := [
    EffectMode(0, "Static", Custom),
    EffectMode(1, "Chase Forward", Custom),
    EffectMode(2, "Chase Backward", Custom),
    EffectMode(3, "Chase Middle to Out", Custom),
    EffectMode(4, "Chase Out to Middle", Custom),
    EffectMode(5, "Stars", Custom),
    EffectMode(6, "Breath", Custom),
    EffectMode(7, "Comet Forward", Custom),
    EffectMode(8, "Comet Backward", Custom),
    EffectMode(9, "Comet Middle to Out", Custom),
    EffectMode(10, "Comet Out to Middle", Custom),
    EffectMode(11, "Wave Forward", Custom),
    EffectMode(12, "Wave Backward", Custom),
    EffectMode(13, "Wave Middle to Out", Custom),
    EffectMode(14, "Wave Out to Middle", Custom),
    EffectMode(15, "Strobe", Custom),
    EffectMode(16, "Solid Fade", Custom)
  ]

  /** `xs` is numbered consecutively from `first`, every entry labelled `category`. */
  predicate Numbered(xs: seq<EffectMode>, first: int, category: string) {
    forall k :: 0 <= k < |xs| ==> xs[k].id == first + k && xs[k].category == category
  }

  /** From position `i` on, the entry at position `k` has id `first + k`. A recursive
      form of `Numbered`, checked one entry at a time. */
  predicate NumberedFrom(xs: seq<EffectMode>, i: nat, first: int, category: string)
    decreases |xs| - i
  {
    i >= |xs| || (xs[i].id == first + i && xs[i].category == category && NumberedFrom(xs, i + 1, first, category))
  }

  lemma {:induction false} NumberedFromAll(xs: seq<EffectMode>, i: nat, first: int, category: string)
    requires NumberedFrom(xs, i, first, category)
    ensures forall k :: i <= k < |xs| ==> xs[k].id == first + k && xs[k].category == category
    decreases |xs| - i
  {
    if i < |xs| {
      NumberedFromAll(xs, i + 1, first, category);
    }
  }

  /** Two consecutively numbered runs, the second starting where the first ends, join
      into one consecutively numbered run. */
  lemma NumberedJoin(xs: seq<EffectMode>, ys: seq<EffectMode>, first: int, category: string)
    requires Numbered(xs, first, category) && Numbered(ys, first + |xs|, category)
    ensures Numbered(xs + ys, first, category)
  {
    forall k | 0 <= k < |xs + ys|
      ensures (xs + ys)[k].id == first + k && (xs + ys)[k].category == category
    {
      if k >= |xs| {
        assert (xs + ys)[k] == ys[k - |xs|];
      }
    }
  }

  /** Every entry's id is its position in its table: 0..179 built-in, 0..16 custom. */
  lemma TableIds()
    ensures |BuiltInEffects| == 180 && |CustomEffects| == 17
    ensures Numbered(BuiltInEffects, 0, BuiltIn)
    ensures Numbered(CustomEffects, 0, Custom)
  {
    BuiltInRun0Numbered();
    BuiltInRun1Numbered();
    BuiltInRun2Numbered();
    BuiltInRun3Numbered();
    BuiltInRun4Numbered();
    BuiltInRun5Numbered();
    BuiltInRun6Numbered();
    BuiltInRun7Numbered();
    BuiltInRun8Numbered();
    NumberedJoin(BuiltInRun0, BuiltInRun1, 0, BuiltIn);
    NumberedJoin(BuiltInRun0 + BuiltInRun1, BuiltInRun2, 0, BuiltIn);
    NumberedJoin(BuiltInRun0 + BuiltInRun1 + BuiltInRun2, BuiltInRun3, 0, BuiltIn);
    NumberedJoin(BuiltInRun0 + BuiltInRun1 + BuiltInRun2 + BuiltInRun3, BuiltInRun4, 0, BuiltIn);
    NumberedJoin(BuiltInRun0 + BuiltInRun1 + BuiltInRun2 + BuiltInRun3 + BuiltInRun4, BuiltInRun5, 0, BuiltIn);
    NumberedJoin(BuiltInRun0 + BuiltInRun1 + BuiltInRun2 + BuiltInRun3 + BuiltInRun4 + BuiltInRun5, BuiltInRun6, 0, BuiltIn);
    NumberedJoin(BuiltInRun0 + BuiltInRun1 + BuiltInRun2 + BuiltInRun3 + BuiltInRun4 + BuiltInRun5 + BuiltInRun6, BuiltInRun7, 0, BuiltIn);
    NumberedJoin(BuiltInRun0 + BuiltInRun1 + BuiltInRun2 + BuiltInRun3 + BuiltInRun4 + BuiltInRun5 + BuiltInRun6 + BuiltInRun7, BuiltInRun8, 0, BuiltIn);
    CustomNumbered();
  }


  lemma BuiltInRun0Numbered()
    ensures |BuiltInRun0| == 20 && Numbered(BuiltInRun0, 0, BuiltIn)
  {
    assert NumberedFrom(BuiltInRun0, 19, 0, BuiltIn);
    assert NumberedFrom(BuiltInRun0, 18, 0, BuiltIn);
    assert NumberedFrom(BuiltInRun0, 17, 0, BuiltIn);
    assert NumberedFrom(BuiltInRun0, 16, 0, BuiltIn);
    assert NumberedFrom(BuiltInRun0, 15, 0, BuiltIn);
    assert NumberedFrom(BuiltInRun0, 14, 0, BuiltIn);
    assert NumberedFrom(BuiltInRun0, 13, 0, BuiltIn);
    assert NumberedFrom(BuiltInRun0, 12, 0, BuiltIn);
    assert NumberedFrom(BuiltInRun0, 11, 0, BuiltIn);
    assert NumberedFrom(BuiltInRun0, 10, 0, BuiltIn);
    assert NumberedFrom(BuiltInRun0, 9, 0, BuiltIn);
    assert NumberedFrom(BuiltInRun0, 8, 0, BuiltIn);
    assert NumberedFrom(BuiltInRun0, 7, 0, BuiltIn);
    assert NumberedFrom(BuiltInRun0, 6, 0, BuiltIn);
    assert NumberedFrom(BuiltInRun0, 5, 0, BuiltIn);
    assert NumberedFrom(BuiltInRun0, 4, 0, BuiltIn);
    assert NumberedFrom(BuiltInRun0, 3, 0, BuiltIn);
    assert NumberedFrom(BuiltInRun0, 2, 0, BuiltIn);
    assert NumberedFrom(BuiltInRun0, 1, 0, BuiltIn);
    assert NumberedFrom(BuiltInRun0, 0, 0, BuiltIn);
    NumberedFromAll(BuiltInRun0, 0, 0, BuiltIn);
  }


  lemma BuiltInRun1Numbered()
    ensures |BuiltInRun1| == 20 && Numbered(BuiltInRun1, 20, BuiltIn)
  {
    assert NumberedFrom(BuiltInRun1, 19, 20, BuiltIn);
    assert NumberedFrom(BuiltInRun1, 18, 20, BuiltIn);
    assert NumberedFrom(BuiltInRun1, 17, 20, BuiltIn);
    assert NumberedFrom(BuiltInRun1, 16, 20, BuiltIn);
    assert NumberedFrom(BuiltInRun1, 15, 20, BuiltIn);
    assert NumberedFrom(BuiltInRun1, 14, 20, BuiltIn);
    assert NumberedFrom(BuiltInRun1, 13, 20, BuiltIn);
    assert NumberedFrom(BuiltInRun1, 12, 20, BuiltIn);
    assert NumberedFrom(BuiltInRun1, 11, 20, BuiltIn);
    assert NumberedFrom(BuiltInRun1, 10, 20, BuiltIn);
    assert NumberedFrom(BuiltInRun1, 9, 20, BuiltIn);
    assert NumberedFrom(BuiltInRun1, 8, 20, BuiltIn);
    assert NumberedFrom(BuiltInRun1, 7, 20, BuiltIn);
    assert NumberedFrom(BuiltInRun1, 6, 20, BuiltIn);
    assert NumberedFrom(BuiltInRun1, 5, 20, BuiltIn);
    assert NumberedFrom(BuiltInRun1, 4, 20, BuiltIn);
    assert NumberedFrom(BuiltInRun1, 3, 20, BuiltIn);
    assert NumberedFrom(BuiltInRun1, 2, 20, BuiltIn);
    assert NumberedFrom(BuiltInRun1, 1, 20, BuiltIn);
    assert NumberedFrom(BuiltInRun1, 0, 20, BuiltIn);
    NumberedFromAll(BuiltInRun1, 0, 20, BuiltIn);
  }


  lemma BuiltInRun2Numbered()
    ensures |BuiltInRun2| == 20 && Numbered(BuiltInRun2, 40, BuiltIn)
  {
    assert NumberedFrom(BuiltInRun2, 19, 40, BuiltIn);
    assert NumberedFrom(BuiltInRun2, 18, 40, BuiltIn);
    assert NumberedFrom(BuiltInRun2, 17, 40, BuiltIn);
    assert NumberedFrom(BuiltInRun2, 16, 40, BuiltIn);
    assert NumberedFrom(BuiltInRun2, 15, 40, BuiltIn);
    assert NumberedFrom(BuiltInRun2, 14, 40, BuiltIn);
    assert NumberedFrom(BuiltInRun2, 13, 40, BuiltIn);
    assert NumberedFrom(BuiltInRun2, 12, 40, BuiltIn);
    assert NumberedFrom(BuiltInRun2, 11, 40, BuiltIn);
    assert NumberedFrom(BuiltInRun2, 10, 40, BuiltIn);
    assert NumberedFrom(BuiltInRun2, 9, 40, BuiltIn);
    assert NumberedFrom(BuiltInRun2, 8, 40, BuiltIn);
    assert NumberedFrom(BuiltInRun2, 7, 40, BuiltIn);
    assert NumberedFrom(BuiltInRun2, 6, 40, BuiltIn);
    assert NumberedFrom(BuiltInRun2, 5, 40, BuiltIn);
    assert NumberedFrom(BuiltInRun2, 4, 40, BuiltIn);
    assert NumberedFrom(BuiltInRun2, 3, 40, BuiltIn);
    assert NumberedFrom(BuiltInRun2, 2, 40, BuiltIn);
    assert NumberedFrom(BuiltInRun2, 1, 40, BuiltIn);
    assert NumberedFrom(BuiltInRun2, 0, 40, BuiltIn);
    NumberedFromAll(BuiltInRun2, 0, 40, BuiltIn);
  }


  lemma BuiltInRun3Numbered()
    ensures |BuiltInRun3| == 20 && Numbered(BuiltInRun3, 60, BuiltIn)
  {
    assert NumberedFrom(BuiltInRun3, 19, 60, BuiltIn);
    assert NumberedFrom(BuiltInRun3, 18, 60, BuiltIn);
    assert NumberedFrom(BuiltInRun3, 17, 60, BuiltIn);
    assert NumberedFrom(BuiltInRun3, 16, 60, BuiltIn);
    assert NumberedFrom(BuiltInRun3, 15, 60, BuiltIn);
    assert NumberedFrom(BuiltInRun3, 14, 60, BuiltIn);
    assert NumberedFrom(BuiltInRun3, 13, 60, BuiltIn);
    assert NumberedFrom(BuiltInRun3, 12, 60, BuiltIn);
    assert NumberedFrom(BuiltInRun3, 11, 60, BuiltIn);
    assert NumberedFrom(BuiltInRun3, 10, 60, BuiltIn);
    assert NumberedFrom(BuiltInRun3, 9, 60, BuiltIn);
    assert NumberedFrom(BuiltInRun3, 8, 60, BuiltIn);
    assert NumberedFrom(BuiltInRun3, 7, 60, BuiltIn);
    assert NumberedFrom(BuiltInRun3, 6, 60, BuiltIn);
    assert NumberedFrom(BuiltInRun3, 5, 60, BuiltIn);
    assert NumberedFrom(BuiltInRun3, 4, 60, BuiltIn);
    assert NumberedFrom(BuiltInRun3, 3, 60, BuiltIn);
    assert NumberedFrom(BuiltInRun3, 2, 60, BuiltIn);
    assert NumberedFrom(BuiltInRun3, 1, 60, BuiltIn);
    assert NumberedFrom(BuiltInRun3, 0, 60, BuiltIn);
    NumberedFromAll(BuiltInRun3, 0, 60, BuiltIn);
  }


  lemma BuiltInRun4Numbered()
    ensures |BuiltInRun4| == 20 && Numbered(BuiltInRun4, 80, BuiltIn)
  {
    assert NumberedFrom(BuiltInRun4, 19, 80, BuiltIn);
    assert NumberedFrom(BuiltInRun4, 18, 80, BuiltIn);
    assert NumberedFrom(BuiltInRun4, 17, 80, BuiltIn);
    assert NumberedFrom(BuiltInRun4, 16, 80, BuiltIn);
    assert NumberedFrom(BuiltInRun4, 15, 80, BuiltIn);
    assert NumberedFrom(BuiltInRun4, 14, 80, BuiltIn);
    assert NumberedFrom(BuiltInRun4, 13, 80, BuiltIn);
    assert NumberedFrom(BuiltInRun4, 12, 80, BuiltIn);
    assert NumberedFrom(BuiltInRun4, 11, 80, BuiltIn);
    assert NumberedFrom(BuiltInRun4, 10, 80, BuiltIn);
    assert NumberedFrom(BuiltInRun4, 9, 80, BuiltIn);
    assert NumberedFrom(BuiltInRun4, 8, 80, BuiltIn);
    assert NumberedFrom(BuiltInRun4, 7, 80, BuiltIn);
    assert NumberedFrom(BuiltInRun4, 6, 80, BuiltIn);
    assert NumberedFrom(BuiltInRun4, 5, 80, BuiltIn);
    assert NumberedFrom(BuiltInRun4, 4, 80, BuiltIn);
    assert NumberedFrom(BuiltInRun4, 3, 80, BuiltIn);
    assert NumberedFrom(BuiltInRun4, 2, 80, BuiltIn);
    assert NumberedFrom(BuiltInRun4, 1, 80, BuiltIn);
    assert NumberedFrom(BuiltInRun4, 0, 80, BuiltIn);
    NumberedFromAll(BuiltInRun4, 0, 80, BuiltIn);
  }


  lemma BuiltInRun5Numbered()
    ensures |BuiltInRun5| == 20 && Numbered(BuiltInRun5, 100, BuiltIn)
  {
    assert NumberedFrom(BuiltInRun5, 19, 100, BuiltIn);
    assert NumberedFrom(BuiltInRun5, 18, 100, BuiltIn);
    assert NumberedFrom(BuiltInRun5, 17, 100, BuiltIn);
    assert NumberedFrom(BuiltInRun5, 16, 100, BuiltIn);
    assert NumberedFrom(BuiltInRun5, 15, 100, BuiltIn);
    assert NumberedFrom(BuiltInRun5, 14, 100, BuiltIn);
    assert NumberedFrom(BuiltInRun5, 13, 100, BuiltIn);
    assert NumberedFrom(BuiltInRun5, 12, 100, BuiltIn);
    assert NumberedFrom(BuiltInRun5, 11, 100, BuiltIn);
    assert NumberedFrom(BuiltInRun5, 10, 100, BuiltIn);
    assert NumberedFrom(BuiltInRun5, 9, 100, BuiltIn);
    assert NumberedFrom(BuiltInRun5, 8, 100, BuiltIn);
    assert NumberedFrom(BuiltInRun5, 7, 100, BuiltIn);
    assert NumberedFrom(BuiltInRun5, 6, 100, BuiltIn);
    assert NumberedFrom(BuiltInRun5, 5, 100, BuiltIn);
    assert NumberedFrom(BuiltInRun5, 4, 100, BuiltIn);
    assert NumberedFrom(BuiltInRun5, 3, 100, BuiltIn);
    assert NumberedFrom(BuiltInRun5, 2, 100, BuiltIn);
    assert NumberedFrom(BuiltInRun5, 1, 100, BuiltIn);
    assert NumberedFrom(BuiltInRun5, 0, 100, BuiltIn);
    NumberedFromAll(BuiltInRun5, 0, 100, BuiltIn);
  }


  lemma BuiltInRun6Numbered()
    ensures |BuiltInRun6| == 20 && Numbered(BuiltInRun6, 120, BuiltIn)
  {
    assert NumberedFrom(BuiltInRun6, 19, 120, BuiltIn);
    assert NumberedFrom(BuiltInRun6, 18, 120, BuiltIn);
    assert NumberedFrom(BuiltInRun6, 17, 120, BuiltIn);
    assert NumberedFrom(BuiltInRun6, 16, 120, BuiltIn);
    assert NumberedFrom(BuiltInRun6, 15, 120, BuiltIn);
    assert NumberedFrom(BuiltInRun6, 14, 120, BuiltIn);
    assert NumberedFrom(BuiltInRun6, 13, 120, BuiltIn);
    assert NumberedFrom(BuiltInRun6, 12, 120, BuiltIn);
    assert NumberedFrom(BuiltInRun6, 11, 120, BuiltIn);
    assert NumberedFrom(BuiltInRun6, 10, 120, BuiltIn);
    assert NumberedFrom(BuiltInRun6, 9, 120, BuiltIn);
    assert NumberedFrom(BuiltInRun6, 8, 120, BuiltIn);
    assert NumberedFrom(BuiltInRun6, 7, 120, BuiltIn);
    assert NumberedFrom(BuiltInRun6, 6, 120, BuiltIn);
    assert NumberedFrom(BuiltInRun6, 5, 120, BuiltIn);
    assert NumberedFrom(BuiltInRun6, 4, 120, BuiltIn);
    assert NumberedFrom(BuiltInRun6, 3, 120, BuiltIn);
    assert NumberedFrom(BuiltInRun6, 2, 120, BuiltIn);
    assert NumberedFrom(BuiltInRun6, 1, 120, BuiltIn);
    assert NumberedFrom(BuiltInRun6, 0, 120, BuiltIn);
    NumberedFromAll(BuiltInRun6, 0, 120, BuiltIn);
  }


  lemma BuiltInRun7Numbered()
    ensures |BuiltInRun7| == 20 && Numbered(BuiltInRun7, 140, BuiltIn)
  {
    assert NumberedFrom(BuiltInRun7, 19, 140, BuiltIn);
    assert NumberedFrom(BuiltInRun7, 18, 140, BuiltIn);
    assert NumberedFrom(BuiltInRun7, 17, 140, BuiltIn);
    assert NumberedFrom(BuiltInRun7, 16, 140, BuiltIn);
    assert NumberedFrom(BuiltInRun7, 15, 140, BuiltIn);
    assert NumberedFrom(BuiltInRun7, 14, 140, BuiltIn);
    assert NumberedFrom(BuiltInRun7, 13, 140, BuiltIn);
    assert NumberedFrom(BuiltInRun7, 12, 140, BuiltIn);
    assert NumberedFrom(BuiltInRun7, 11, 140, BuiltIn);
    assert NumberedFrom(BuiltInRun7, 10, 140, BuiltIn);
    assert NumberedFrom(BuiltInRun7, 9, 140, BuiltIn);
    assert NumberedFrom(BuiltInRun7, 8, 140, BuiltIn);
    assert NumberedFrom(BuiltInRun7, 7, 140, BuiltIn);
    assert NumberedFrom(BuiltInRun7, 6, 140, BuiltIn);
    assert NumberedFrom(BuiltInRun7, 5, 140, BuiltIn);
    assert NumberedFrom(BuiltInRun7, 4, 140, BuiltIn);
    assert NumberedFrom(BuiltInRun7, 3, 140, BuiltIn);
    assert NumberedFrom(BuiltInRun7, 2, 140, BuiltIn);
    assert NumberedFrom(BuiltInRun7, 1, 140, BuiltIn);
    assert NumberedFrom(BuiltInRun7, 0, 140, BuiltIn);
    NumberedFromAll(BuiltInRun7, 0, 140, BuiltIn);
  }


  lemma BuiltInRun8Numbered()
    ensures |BuiltInRun8| == 20 && Numbered(BuiltInRun8, 160, BuiltIn)
  {
    assert NumberedFrom(BuiltInRun8, 19, 160, BuiltIn);
    assert NumberedFrom(BuiltInRun8, 18, 160, BuiltIn);
    assert NumberedFrom(BuiltInRun8, 17, 160, BuiltIn);
    assert NumberedFrom(BuiltInRun8, 16, 160, BuiltIn);
    assert NumberedFrom(BuiltInRun8, 15, 160, BuiltIn);
    assert NumberedFrom(BuiltInRun8, 14, 160, BuiltIn);
    assert NumberedFrom(BuiltInRun8, 13, 160, BuiltIn);
    assert NumberedFrom(BuiltInRun8, 12, 160, BuiltIn);
    assert NumberedFrom(BuiltInRun8, 11, 160, BuiltIn);
    assert NumberedFrom(BuiltInRun8, 10, 160, BuiltIn);
    assert NumberedFrom(BuiltInRun8, 9, 160, BuiltIn);
    assert NumberedFrom(BuiltInRun8, 8, 160, BuiltIn);
    assert NumberedFrom(BuiltInRun8, 7, 160, BuiltIn);
    assert NumberedFrom(BuiltInRun8, 6, 160, BuiltIn);
    assert NumberedFrom(BuiltInRun8, 5, 160, BuiltIn);
    assert NumberedFrom(BuiltInRun8, 4, 160, BuiltIn);
    assert NumberedFrom(BuiltInRun8, 3, 160, BuiltIn);
    assert NumberedFrom(BuiltInRun8, 2, 160, BuiltIn);
    assert NumberedFrom(BuiltInRun8, 1, 160, BuiltIn);
    assert NumberedFrom(BuiltInRun8, 0, 160, BuiltIn);
    NumberedFromAll(BuiltInRun8, 0, 160, BuiltIn);
  }


  lemma CustomNumbered()
    ensures Numbered(CustomEffects, 0, Custom)
  {
    assert NumberedFrom(CustomEffects, 16, 0, Custom);
    assert NumberedFrom(CustomEffects, 15, 0, Custom);
    assert NumberedFrom(CustomEffects, 14, 0, Custom);
    assert NumberedFrom(CustomEffects, 13, 0, Custom);
    assert NumberedFrom(CustomEffects, 12, 0, Custom);
    assert NumberedFrom(CustomEffects, 11, 0, Custom);
    assert NumberedFrom(CustomEffects, 10, 0, Custom);
    assert NumberedFrom(CustomEffects, 9, 0, Custom);
    assert NumberedFrom(CustomEffects, 8, 0, Custom);
    assert NumberedFrom(CustomEffects, 7, 0, Custom);
    assert NumberedFrom(CustomEffects, 6, 0, Custom);
    assert NumberedFrom(CustomEffects, 5, 0, Custom);
    assert NumberedFrom(CustomEffects, 4, 0, Custom);
    assert NumberedFrom(CustomEffects, 3, 0, Custom);
    assert NumberedFrom(CustomEffects, 2, 0, Custom);
    assert NumberedFrom(CustomEffects, 1, 0, Custom);
    assert NumberedFrom(CustomEffects, 0, 0, Custom);
    NumberedFromAll(CustomEffects, 0, 0, Custom);
  }
}
