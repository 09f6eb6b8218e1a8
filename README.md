# WarmUpCosine schedule and data preparation of the ViT-S32 scene classifier

This project models the deterministic parts of the notebook that fine-tunes a
ViT-S32 image classifier on a scene dataset. The model and its proofs are in Dafny.

- `schedule.dfy` (module `Schedule`): the `WarmUpCosine` learning-rate
  schedule. The four settings stored by `__init__` are a `WarmUpCosine`
  datatype value, since nothing reassigns them. `__call__` is the pure
  function `Call`. It mirrors the source's order:
  1. the span check;
  2. the cosine value, computed for every step;
  3. when there is warmup, the rate check and the warmup override;
  4. the cutoff override, which is applied last.

  The result is either `Ok(rate)` or `Err` with the `ValueError` raised.
  `RegimeOf` names the three regimes (Warmup, Decay, Expired) by their
  ordered guards. `Call`'s contract ties each regime to its value.
- `dataset.dfy` (module `Dataset`): three helpers.
  - The label loop (`CollectLabels`), built on a model of Python's
    `str.split` (`SplitOn`).
  - The 90/10 train/validation split (`SplitDataset`).
  - The class-weight loop (`ClassWeights`), specified by `ClassWeightTable`.
- `floats.dfy` (module `Floats`): a floating-point value is finite, an
  infinity or NaN. `Div` is IEEE division by a finite divisor. A zero
  divisor gives an infinity or NaN and does not raise, as TensorFlow and
  NumPy division do.

`tf.cos` is a parameter `cos: real -> real` of the schedule. The lemmas that
need more than its type assume `IsCosine(cos)`: every value lies in [-1, 1],
and `cos(0) == 1`.

Both `ValueError`s are raised inside `__call__` (lines 203-204 and 219-223),
not in `__init__`, so every call checks them. The model follows the code:
`WarmUpCosine` values can always be built, and `Call` returns the error on
every step.

The case `total_steps == warmup_steps` is modelled as the code behaves.
The decay argument is divided by `0.0` and becomes an infinity or NaN. Its
cosine is NaN, so the decay value is NaN. The warmup and cutoff overrides
still apply, and `Call` returns `Ok(NaN)` exactly on the steps of the decay
regime (`ZeroSpanYieldsNaN`). Negative steps are not rejected either. With
warmup they get the warmup line extended to steps below 0, at or below the
warmup rate (strictly below when the base exceeds it). Without warmup they
get the cosine value up to `total_steps` and 0.0 past it. A negative step lies past it only when `total_steps < 0`.

## Model

| member | source | states |
|---|---|---|
| `Floats.Div` | vit-S32/Light-Augmentation/image_scene_classification_vit_s32_ligh_augmentation.py:95 | A nonzero divisor gives a finite quotient that times the divisor is the dividend. A zero divisor gives +inf, -inf or NaN by the dividend's sign (NaN exactly for 0/0). |
| `Schedule.Call` | vit-S32/Light-Augmentation/image_scene_classification_vit_s32_ligh_augmentation.py:202-233 | A call fails exactly when the settings are not accepted. `total_steps < warmup_steps` gives the span error, whatever the other settings (it is checked first); otherwise a failure is the rate error. A successful call returns 0.0 in the Expired regime, the warmup line in the Warmup regime and the cosine value in the Decay regime. It is NaN only in the Decay regime with a zero span. |
| `Schedule.CosineDecay` | vit-S32/Light-Augmentation/image_scene_classification_vit_s32_ligh_augmentation.py:205-216 | The value is finite iff the decay span is nonzero, and NaN otherwise. With cos in [-1,1] and a non-negative base it lies in [0, base]. At step == warmup_steps it equals the base. |
| `Schedule.Accepted` | vit-S32/Light-Augmentation/image_scene_classification_vit_s32_ligh_augmentation.py:203-223 | Accepted settings have total_steps ≥ warmup_steps, and with warmup a non-negative slope. Rejected settings have total_steps < warmup_steps, or warmup with base < warmup_lr (lines 218-223). |
| `Schedule.RegimeOf` | vit-S32/Light-Augmentation/image_scene_classification_vit_s32_ligh_augmentation.py:228-233 | Expired iff step > total_steps. Warmup only for 0 < warmup_steps, step < warmup_steps and step ≤ total_steps, since the cutoff overrides the warmup. Decay only for step ≤ total_steps past the warmup, or with no warmup. |
| `Schedule.Slope` | vit-S32/Light-Augmentation/image_scene_classification_vit_s32_ligh_augmentation.py:224-226 | The slope times warmup_steps is base - warmup_lr. It is non-negative iff base ≥ warmup_lr. |
| `Schedule.WarmupLine` | vit-S32/Light-Augmentation/image_scene_classification_vit_s32_ligh_augmentation.py:224-227 | The line is warmup_lr at step 0, and its rise over warmup_lr at a step is slope × step. |
| `Schedule.HalfCosineScale` | vit-S32/Light-Augmentation/image_scene_classification_vit_s32_ligh_augmentation.py:205-216 | With c in [-1, 1] and a non-negative base, base · ½(1 + c) lies in [0, base]. It equals the base when c == 1. |
| `Schedule.CosineFactor` | vit-S32/Light-Augmentation/image_scene_classification_vit_s32_ligh_augmentation.py:205-216 | ½(1 + c) lies in [0, 1] for c in [-1, 1], and is 1 when c == 1. |
| `Schedule.Cutoff` | vit-S32/Light-Augmentation/image_scene_classification_vit_s32_ligh_augmentation.py:231-233 | Past total_steps the rate is 0.0. Up to total_steps the rate computed so far passes through unchanged. |
| `Schedule.RegimeIntervals` | vit-S32/Light-Augmentation/image_scene_classification_vit_s32_ligh_augmentation.py:228-233 | For accepted settings the regimes are intervals: Warmup iff 0 < warmup_steps and step < warmup_steps; Decay iff the step is past the warmup (or there is none) and step ≤ total_steps; Expired iff step > total_steps. |
| `Schedule.NoRateCheckWithoutWarmup` | vit-S32/Light-Augmentation/image_scene_classification_vit_s32_ligh_augmentation.py:218-223 | With warmup_steps == 0 and total_steps ≥ 0, every call succeeds, even when the base is below the warmup rate. |
| `Schedule.ExpiredRateIsZero` | vit-S32/Light-Augmentation/image_scene_classification_vit_s32_ligh_augmentation.py:231-233 | For accepted settings and step > total_steps, the result is exactly `Ok(0.0)`. |
| `Schedule.WarmupRate` | vit-S32/Light-Augmentation/image_scene_classification_vit_s32_ligh_augmentation.py:224-230 | For accepted settings with warmup_steps > 0 and step < warmup_steps, the result is `(base - warmup_lr) / warmup_steps * step + warmup_lr`. |
| `Schedule.RateAtStepZero` | vit-S32/Light-Augmentation/image_scene_classification_vit_s32_ligh_augmentation.py:224-230 | With warmup, step 0 yields exactly the warmup rate. |
| `Schedule.WarmupLineReachesBase` | vit-S32/Light-Augmentation/image_scene_classification_vit_s32_ligh_augmentation.py:224-227 | The warmup line extended to step == warmup_steps equals the base exactly. |
| `Schedule.WarmupLineMonotone` | vit-S32/Light-Augmentation/image_scene_classification_vit_s32_ligh_augmentation.py:224-227 | When base ≥ warmup_lr, the warmup line never decreases. When base > warmup_lr, it rises strictly. |
| `Schedule.WarmupLineBounds` | vit-S32/Light-Augmentation/image_scene_classification_vit_s32_ligh_augmentation.py:224-227 | For 0 ≤ step < warmup_steps the line lies in [warmup_lr, base]. It is strictly below base when base > warmup_lr. |
| `Schedule.RateRisesDuringWarmup` | vit-S32/Light-Augmentation/image_scene_classification_vit_s32_ligh_augmentation.py:224-230 | For 0 ≤ i ≤ j < warmup_steps both calls succeed with finite rates, rate(i) ≤ rate(j) (strictly when base > warmup_lr and i < j), and rate(i) lies in [warmup_lr, base]. |
| `Schedule.DecayRate` | vit-S32/Light-Augmentation/image_scene_classification_vit_s32_ligh_augmentation.py:205-216 | When warmup_steps ≤ step ≤ total_steps and total_steps > warmup_steps, the result is the finite cosine value. With a non-negative base it lies in [0, base]. |
| `Schedule.ContinuousAtWarmupEnd` | vit-S32/Light-Augmentation/image_scene_classification_vit_s32_ligh_augmentation.py:205-230 | At step == warmup_steps the result is the base, which is where the warmup line arrives. The regimes meet with no jump. |
| `Schedule.ZeroSpanYieldsNaN` | vit-S32/Light-Augmentation/image_scene_classification_vit_s32_ligh_augmentation.py:205-233 | With total_steps == warmup_steps every call succeeds. It returns NaN exactly at step == total_steps, and also below it when total_steps ≤ 0. |
| `Schedule.RateInRange` | vit-S32/Light-Augmentation/image_scene_classification_vit_s32_ligh_augmentation.py:202-233 | For accepted settings with non-negative base and warmup rate, every call at a step ≥ 0 succeeds, and a finite rate lies in [0, base], in every regime. |
| `Schedule.NotebookSchedule` | vit-S32/Light-Augmentation/image_scene_classification_vit_s32_ligh_augmentation.py:235-240 | The notebook's schedule has 10 warmup steps and the given horizon. It is accepted iff the horizon is at least 10. |
| `Schedule.NotebookScheduleValues` | vit-S32/Light-Augmentation/image_scene_classification_vit_s32_ligh_augmentation.py:77-79 | The notebook's schedule (base 0.03, warmup rate 0.006, 10 warmup steps) gives 0.006 at step 0, 0.018 at step 5, 0.03 at step 10 and 0.0 past the horizon. With a horizon of 5 it fails with the span error. |
| `Dataset.SplitOn` | vit-S32/Light-Augmentation/image_scene_classification_vit_s32_ligh_augmentation.py:50 | `str.split(sep)` returns at least one piece. It returns exactly one piece iff the separator does not occur, and that piece is then the whole string. |
| `Dataset.JoinSplit` | vit-S32/Light-Augmentation/image_scene_classification_vit_s32_ligh_augmentation.py:50 | Joining the pieces with the separator gives back the string. |
| `Dataset.SplitPiecesFree` | vit-S32/Light-Augmentation/image_scene_classification_vit_s32_ligh_augmentation.py:50 | No piece contains the separator. |
| `Dataset.Label` | vit-S32/Light-Augmentation/image_scene_classification_vit_s32_ligh_augmentation.py:50 | `path.split("/")[1]` exists iff the path contains "/" (otherwise Python raises `IndexError`). The label contains no "/". |
| `Dataset.LabelOfPath` | vit-S32/Light-Augmentation/image_scene_classification_vit_s32_ligh_augmentation.py:50 | The label of `a/<class>` followed by nothing or by a "/"-led rest, with "/" in neither `a` nor `<class>`, is `<class>`. |
| `Dataset.CollectLabels` | vit-S32/Light-Augmentation/image_scene_classification_vit_s32_ligh_augmentation.py:48-51 | The loop succeeds iff every path contains "/". It then yields one label per path, in order, each that path's `Label`. Otherwise it stops at the first path without "/", and all earlier paths had one. |
| `Dataset.TrainCount` | vit-S32/Light-Augmentation/image_scene_classification_vit_s32_ligh_augmentation.py:57-59 | The training count is the floor of 0.9·n, so it never exceeds n. |
| `Dataset.Take` | vit-S32/Light-Augmentation/image_scene_classification_vit_s32_ligh_augmentation.py:61-62 | `xs[:i]` is a prefix of xs. It has length i when i ≤ len(xs), and is the whole list otherwise. |
| `Dataset.Drop` | vit-S32/Light-Augmentation/image_scene_classification_vit_s32_ligh_augmentation.py:63-64 | `xs[i:]` is what follows `xs[:i]`: the two concatenated give back xs. |
| `Dataset.SplitDataset` | vit-S32/Light-Augmentation/image_scene_classification_vit_s32_ligh_augmentation.py:61-64 | Train followed by validation reproduces the paths, and likewise the labels. The training part holds floor(0.9·n) paths, and with one label per path as many labels. |
| `Dataset.SplitKeepsPairs` | vit-S32/Light-Augmentation/image_scene_classification_vit_s32_ligh_augmentation.py:57-64 | With one label per path, every (path, label) pair in either part is the pair at the same original index. A labelling made by the label loop still holds on both parts. |
| `Dataset.Max` | vit-S32/Light-Augmentation/image_scene_classification_vit_s32_ligh_augmentation.py:95 | `classTotals.max()` is one of the totals and at least every total. |
| `Dataset.ClassWeightTable` | vit-S32/Light-Augmentation/image_scene_classification_vit_s32_ligh_augmentation.py:92-95 | The table has an entry for exactly the class indices 0..n-1. Its values are stated by `WeightOfClass`. |
| `Dataset.ClassWeights` | vit-S32/Light-Augmentation/image_scene_classification_vit_s32_ligh_augmentation.py:92-95 | The loop builds exactly `ClassWeightTable`: keys 0..n-1, each weight being `Div(max, total)`. |
| `Dataset.WeightOfClass` | vit-S32/Light-Augmentation/image_scene_classification_vit_s32_ligh_augmentation.py:95 | Class i has a weight, equal to `Div(max, total_i)`. A class with no examples gets a non-finite weight, not an exception. |
| `Dataset.WeightsAtLeastOne` | vit-S32/Light-Augmentation/image_scene_classification_vit_s32_ligh_augmentation.py:90-95 | With positive totals every weight is finite and at least 1. |
| `Dataset.MostFrequentWeighsOne` | vit-S32/Light-Augmentation/image_scene_classification_vit_s32_ligh_augmentation.py:90-95 | A class whose positive total is the largest weighs exactly 1. |

## Left out

- Schedule.CosineDecay: the bounds are stated for a non-negative base only. The notebook's base is 0.03, and a negative base has no meaning as a learning rate.
- The numeric value of `tf.cos` and of `tf.constant(np.pi)`: `cos` is a parameter and `Pi` a real constant. Only the range [-1, 1] and `cos(0) == 1` are assumed, so the exact value at step == total_steps (where cos(π) = -1 would give 0) is not proved.
- float32 and float64 rounding: rates, totals and weights are exact reals. Because of this, the schedule's determinism holds in the model by construction.
- `TOTAL_STEPS` (line 76) comes from a float division and truncation of the training-set size. It is a parameter of `NotebookSchedule`.
- TrainCount: the model uses the exact floor of 9·n/10 for `int(len(image_paths) * 0.9)`. The double-precision product `n * 0.9` is not modelled.
- The learning-rate plot over `range(TOTAL_STEPS)` (lines 242-246), `Counter`/`pprint` of the labels (lines 52-53), and every other print or plot: these are output only.
- Listing and shuffling the image files, seeding (lines 35-44): filesystem and global random state. `CollectLabels` takes the path list as input.
- `LabelEncoder`, `to_categorical` and the column sums (lines 83-91): library internals. `ClassWeights` takes the per-class totals as input.
- Image reading, decoding, resizing, cropping and the augmentation layers (lines 104-132): foreign library calls and randomness.
- The `tf.data` pipelines (lines 99-100, 136-150): framework plumbing with parallelism.
- Model construction from TF Hub, the optimizer, loss, compile, fit, callbacks, evaluation and the log upload (lines 166-179, 250-296): external engines, network and I/O.
