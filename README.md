# Analog clock widget: a model of its logic

The repository is one desktop widget, `AnalogClock`. It draws a frameless, translucent analog clock that can be dragged, resized, and shows a resize grip that hides itself. Nearly all of it is painting and windowing through the GUI toolkit. This project models the logic inside the widget, with toolkit results passed in as plain values:

- **Hand rotation.** The fraction along a circle path at which each hand tip is drawn. The path starts at 3 o'clock and runs clockwise, so the fraction is rebased to put 12 o'clock at its origin. The model uses exact `real` arithmetic.
- **Hand angles.** 6 degrees per second or minute for the second and minute hands. 30 degrees per hour plus half a degree per minute for the hour hand, whose hour comes from `%I` (1..12).
- **Numeral placement.** Which numeral is drawn at each of the twelve face divisions, and which spike and label radii each division gets.
- **Square resizing.** The window is forced back to a square whose side is `min(width, height)`.
- **Resize-grip marks.** The loop that places six 7-pixel marks in the bottom-right corner.
- **Grip auto-hide.** The per-tick state machine over `cursor_above_window`, `cursor_enter_time` and the grip layer's hidden flag.
- **Dragging.** Incremental moves of the window from global pointer positions.

Everything is in `clock_model.dfy`, module `ClockModel`. Pure rules are functions (`HandRotation`, `FacePlacements`, `SquareSide`, `GripMarksAt`, `HideStep`, `Move`), and lemmas are proved about them. The widget is the class `ClockModel.AnalogClock`. Its fields are the widget's state. Each method's `ensures` ties the new state to those functions applied to the old state. `Valid()` is the invariant every event keeps:
- the window is square, with side `size`;
- the grip marks sit at the current corner;
- the grip is shown exactly while the cursor counts as above the window;
- the displayed time is well formed.

Three details of the code that are easy to misread:
- The hand fraction for the angles the widget produces lies in (0, 1], not [0, 1). Second 15 gives exactly 1.0, the end of the closed path, which is the same point as 0.
- The eight minor divisions get the shallower spike (inner radius 0.41 of the size) and the outer label circle (0.37). The four divisions at 3, 6, 9 and 12 get the deeper spike (0.39) and the inner label circle (0.35).
- The grip is hidden only on a tick where `now - cursor_enter_time == 5` exactly, not once at least 5 seconds have passed. `AwayTicksHide` proves the consequence: if the tick at exactly five seconds is missed, the grip stays visible until the cursor returns.

## Model

| member | source | states |
|---|---|---|
| ClockModel.TwelveHour | analog_clock.py:233-237 | the `%I` hour is in 1..12 and agrees with the 24-hour hour modulo 12 |
| ClockModel.ReadClock | analog_clock.py:233-237 | the displayed time is a valid clock state holding the `%I` hour, the minute and the second |
| ClockModel.SixtiethAngle | analog_clock.py:191-202 | the second/minute hand angle lies in the domain HandRotation is used on and is s/60 of a full turn |
| ClockModel.HourAngle | analog_clock.py:215 | the hour-hand angle lies in [30h, 30h+30) (inside its hour's sector), is (h + m/60)/12 of a turn, and lies in [30, 390) |
| ClockModel.HourAngleDrift | analog_clock.py:215 | 3:00 gives 90 degrees, 3:30 gives 105 degrees, 12:00 gives 360 degrees |
| ClockModel.HandRotation | analog_clock.py:102-104 | the fraction is never negative |
| ClockModel.HandRotationBranches | analog_clock.py:102-104 | the `f*100 > 25` test is the angle 90 degrees; above -270 degrees the `abs` is inert, giving f - 0.25 above 90 and f + 0.75 otherwise |
| ClockModel.HandRotationRange | analog_clock.py:102-104 | for every angle in [0, 390) the fraction lies in (0, 1], and equals 1 exactly at 90 degrees |
| ClockModel.HandRotationPointsAt | analog_clock.py:102-104 | the path point at the fraction is val/360 of a turn clockwise from 12 o'clock, modulo whole turns |
| ClockModel.HandRotationWrap | analog_clock.py:102-104 | val and val + 360 give fractions that are equal up to 90 degrees and differ by exactly 1 beyond (agree modulo 1) |
| ClockModel.HandRotationExamples | analog_clock.py:102-104 | 0 and 360 degrees both give 0.75, 90 gives 1.0, 180 gives 0.25 |
| ClockModel.HandRotationAdvances | analog_clock.py:102-104 | advancing the angle from a to b (less than a turn) moves the tip clockwise by exactly (b - a)/360 of the circle modulo 1 |
| ClockModel.HandFractions | analog_clock.py:190-216 | all three hand fractions lie in (0, 1]; the second, minute and hour hands point s/60, m/60 and (h + m/60)/12 of a turn clockwise from 12 |
| ClockModel.FacePlacementsRule | analog_clock.py:157-180 | every division d in 1..12 carries numeral ((d + 2) mod 12) + 1; the multiples of 3 get the 0.39 spike and 0.35 label circle, the others 0.41 and 0.37; every spike ends inside the 0.45 outer circle |
| ClockModel.FacePlacementsOnce | analog_clock.py:157-180 | the divisions drawn are exactly 1..12 and the numerals drawn are exactly 1..12, each exactly once |
| ClockModel.HourHandMeetsNumeral | analog_clock.py:171-180 | at h o'clock sharp the hour-hand fraction is d/12 for the division d that carries numeral h |
| ClockModel.SquareSide | analog_clock.py:240-241 | the side is at most both width and height and equals one of them (their minimum) |
| ClockModel.SquareSideIdempotent | analog_clock.py:240-245 | squaring an already square window changes nothing, so the resize the rule triggers is a no-op |
| ClockModel.GripMarksStaircase | analog_clock.py:67-77 | a point is one of the six marks exactly when it lies a and b mark-widths up and left of the corner with a, b >= 1 and a + b <= 4 |
| ClockModel.GripMarksInsideSizeGrip | analog_clock.py:67-83 | the six marks are distinct and each 7x7 mark lies inside the 25x25 size grip at the bottom-right corner |
| ClockModel.HideStep | analog_clock.py:91-99 | a tick under the mouse stamps `now` and shows the grip, and changes only the stamp when the cursor was already above; a tick away hides exactly when `now - enter == 5`, and otherwise changes nothing; the grip-shown/cursor-above correspondence is kept |
| ClockModel.AwayTicksHide | analog_clock.py:91-99 | over any run of ticks with the mouse away, the grip ends hidden iff it already was or some tick falls exactly 5 s after the cursor was last seen; the stamp never moves |
| ClockModel.LeaveForFiveSeconds | analog_clock.py:91-99 | entering shows the grip at once; after leaving it is still visible after four ticks and hidden at the fifth second |
| ClockModel.Press | analog_clock.py:265-266 | a press records the pointer position and leaves the window where it is |
| ClockModel.Move | analog_clock.py:269-273 | a move off the grip records the new pointer position and keeps the window's offset from the recorded pointer; over the grip nothing changes |
| ClockModel.KeepsGrabOffset | analog_clock.py:269-273 | over any run of moves the window's offset from the recorded pointer is unchanged; moves all over the grip change nothing; the last move off the grip is the recorded position |
| ClockModel.DragFollowsPointer | analog_clock.py:265-273 | after a press at p and any moves, the window has moved by exactly the pointer's displacement from p to the last recorded position |
| ClockModel.DragExample | analog_clock.py:265-273 | press at (50, 50), move to (80, 65): the window shifts by (+30, +15); a second move to the same point adds nothing |
| ClockModel.AnalogClock.constructor | analog_clock.py:21-50 | the widget starts 200 square at (100, 100), showing the given time, with the grip hidden, the cursor not above, the stamp 0, and the marks in place |
| ClockModel.AnalogClock.AddSizeGrip | analog_clock.py:62-88 | creates six fresh mark labels at the corner positions and hides the grip layer; nothing else changes |
| ClockModel.AnalogClock.UpdateSizeGrip | analog_clock.py:248-256 | the swapping loop places exactly the marks (-7,-7), (-14,-7), (-7,-14), (-21,-7), (-7,-21), (-14,-14) from (width, width); the loop of lines 67-77 is the same and is modelled by this method |
| ClockModel.AnalogClock.UpdateSize | analog_clock.py:240-245 | `size` and `screen_resize` become min(width, height) and the window becomes size x size; nothing else changes |
| ClockModel.AnalogClock.ResizeEvent | analog_clock.py:281-284 | after a resize to w x h the widget is square with side min(w, h), the marks sit at the new corner, and the invariant holds |
| ClockModel.AnalogClock.HideSizegrip | analog_clock.py:91-99 | the grip fields change exactly as HideStep says and the invariant holds; nothing else changes |
| ClockModel.AnalogClock.UpdateDateTime | analog_clock.py:233-237 | the displayed time becomes the `%I` reading of the given wall-clock time and the invariant holds; nothing else changes |
| ClockModel.AnalogClock.UpdateWindow | analog_clock.py:259-262 | one tick runs the grip step and then refreshes the time, keeping the invariant |
| ClockModel.AnalogClock.MousePressEvent | analog_clock.py:265-266 | the recorded pointer becomes the press position and the invariant holds; nothing else changes |
| ClockModel.AnalogClock.MouseMoveEvent | analog_clock.py:269-273 | position and recorded pointer change exactly as Move says and the invariant holds; nothing else changes |

## Left out

- Painting: circle paths, `pointAtPercent`, lines, text, pens, gradients, fonts and render hints. The model stops at the fraction passed to `pointAtPercent`. Hand-tip coordinates and their scaling with the size are not modelled.
- Minor numerals and spikes are placed at `8.33 * d / 100` along the path, not exactly `d / 12`. The model and `HourHandMeetsNumeral` use the division index d, and the drift of 1/30000 of the path (0.0033 percentage points) per division is not modelled.
- `HandRotation` runs on IEEE doubles in the program; the model is exact rational arithmetic and claims nothing about rounding (for example at the 90-degree boundary).
- Reading the system clock (`datetime.now`, `strftime`, `time.time`): the wall-clock time and the current second `now` are parameters.
- Hit-testing: whether the mouse is over the widget or over the size grip is a boolean parameter.
- The timer, the event loop, the application object, Escape and quit handling, and window creation in `load`.
- `pos_x`/`pos_y` are only the initial position (100, 100) and are never updated; the model keeps the window's actual position in `pos`.
- Stylesheets, layouts, the 200x200 minimum size that the toolkit enforces, and the grip layer's own geometry (line 282 resizes it to the unsquared size). Only the mark positions are modelled.
- The repaint request in `update_window`, and any resize events that toolkit calls generate themselves. `SquareSideIdempotent` shows that the follow-up resize `update_size` causes would change nothing.
